/** The expense-entry form (screens/KeepAccountScreen.js): the default record,
    the field update with its sub-type reset, and the submit/save lifecycle.
    The clock is a parameter and the save request goes to a ghost log. */
module KeepAccount {
  import opened Wrappers
  import opened TypeTables

  /** The record being entered. `change` is the amount; `None` stands for the
      empty text field (JavaScript `null`). `datetime` is an instant. */
  datatype Account = Account(
    accountType: string,
    subType: string,
    change: Option<int>,
    merchant: Option<string>,
    datetime: int,
    comments: Option<string>)

  /** The fields one update supplies (`None`: the field is absent from the update). */
  datatype AccountUpdate = AccountUpdate(
    accountType: Option<string>,
    subType: Option<string>,
    change: Option<Option<int>>,
    merchant: Option<Option<string>>,
    datetime: Option<int>,
    comments: Option<Option<string>>)

  /** The number a JavaScript comparison sees for the amount: `null` becomes 0. */
  function AmountAsNumber(change: Option<int>): int {
    change.GetOr(0)
  }

  /** The amount passes the submit check, i.e. `change <= 0` is false: only a
      positive amount passes; a missing one is refused. */
  function AmountAccepted(change: Option<int>): (ok: bool)
    ensures ok <==> change.Some? && change.value > 0
  {
    !(AmountAsNumber(change) <= 0)
  }

  /** `initAccount()` at time `now`: an "eat" record without sub-type, amount,
      merchant or comments. */
  function InitAccount(now: int): (a: Account)
    ensures a.accountType == Eat && a.subType == NoSubType && a.datetime == now
    ensures a.change == None && a.merchant == None && a.comments == None
    ensures IsTypeValue(a.accountType) && a.accountType in SubTypes
    ensures HasValue(SubTypes[a.accountType], a.subType)
    ensures !AmountAccepted(a.change)
  {
    SubTypesAreWellFormed();
    TypesAreWellFormed();
    Account(Eat, NoSubType, None, None, now, None)
  }

  /** The update changes the type: its `type` is present and truthy. */
  predicate ChangesType(u: AccountUpdate) {
    Truthy(u.accountType)
  }

  /** `{ ...account, ...update }`: every field present in the update is set to the
      supplied value; every absent field keeps its value. */
  function Overwrite(a: Account, u: AccountUpdate): (r: Account)
    ensures r.accountType == (if u.accountType.Some? then u.accountType.value else a.accountType)
    ensures r.subType == (if u.subType.Some? then u.subType.value else a.subType)
    ensures r.change == (if u.change.Some? then u.change.value else a.change)
    ensures r.merchant == (if u.merchant.Some? then u.merchant.value else a.merchant)
    ensures r.datetime == (if u.datetime.Some? then u.datetime.value else a.datetime)
    ensures r.comments == (if u.comments.Some? then u.comments.value else a.comments)
  {
    Account(
      u.accountType.GetOr(a.accountType),
      u.subType.GetOr(a.subType),
      u.change.GetOr(a.change),
      u.merchant.GetOr(a.merchant),
      u.datetime.GetOr(a.datetime),
      u.comments.GetOr(a.comments))
  }

  /** The record after `updateAccount(u)`: the fields of `u` overwrite the record,
      and a type change then resets the sub-type, even when `u` also supplies one.
      No field but the sub-type differs from the plain overwrite. */
  function Updated(a: Account, u: AccountUpdate): (r: Account)
    ensures r == Overwrite(a, u).(subType := r.subType)
    ensures r.subType == (if ChangesType(u) then NoSubType
                          else if u.subType.Some? then u.subType.value else a.subType)
  {
    var merged := Overwrite(a, u);
    if ChangesType(u) then merged.(subType := NoSubType) else merged
  }

  /** Applying the same update twice is applying it once. */
  lemma UpdateIsIdempotent(a: Account, u: AccountUpdate)
    ensures Updated(Updated(a, u), u) == Updated(a, u)
  {
  }

  /** The form: the record being entered, the save spinner, and the sub-type list
      offered by the sub-type picker. */
  class KeepAccountScreen {
    var account: Account
    var spinner: bool
    var subTypes: seq<PickerItem>
    /** The type whose list `subTypes` is; it may differ from `account.accountType`. */
    ghost var listType: string
    /** Every record sent to the server, oldest first. */
    ghost var saves: seq<Account>

    /** The record has a type of the table, the list is the table's list for
        `listType`, and the record's sub-type is offered by that list. */
    ghost predicate Valid()
      reads this
    {
      && IsTypeValue(account.accountType)
      && listType in SubTypes && subTypes == SubTypes[listType]
      && HasValue(subTypes, account.subType)
    }

    constructor (now: int)
      ensures Valid()
      ensures account == InitAccount(now) && !spinner
      ensures listType == Eat && subTypes == SubTypes[Eat] && saves == []
    {
      account := InitAccount(now);
      spinner := false;
      subTypes := SubTypes[Eat];
      listType := Eat;
      saves := [];
    }

    /** The screen regains focus: a fresh record; the sub-type list stays as it is. */
    method Focus(now: int)
      requires Valid()
      modifies this
      ensures Valid()
      ensures account == InitAccount(now)
      ensures subTypes == old(subTypes) && listType == old(listType)
      ensures spinner == old(spinner) && saves == old(saves)
    {
      SubTypesAreWellFormed();
      account := InitAccount(now);
    }

    /** `updateAccount(u)` from one of the form's controls. The type picker offers
        only type values and the sub-type picker only the current list's values. */
    method UpdateAccount(u: AccountUpdate)
      requires Valid()
      requires u.accountType.Some? ==> IsTypeValue(u.accountType.value)
      requires u.subType.Some? && !ChangesType(u) ==> HasValue(subTypes, u.subType.value)
      modifies this
      ensures Valid()
      ensures account == Updated(old(account), u)
      ensures ChangesType(u) ==> listType == u.accountType.value && subTypes == SubTypes[u.accountType.value]
      ensures ChangesType(u) ==> account.subType == NoSubType && listType == account.accountType
      ensures !ChangesType(u) ==> subTypes == old(subTypes) && listType == old(listType)
      ensures spinner == old(spinner) && saves == old(saves)
    {
      SubTypesAreWellFormed();
      var merged := Overwrite(account, u);
      if ChangesType(u) {
        merged := merged.(subType := NoSubType);
        subTypes := SubTypes[u.accountType.value];
        listType := u.accountType.value;
      }
      account := merged;
    }

    /** `submit()`: a record without a positive amount is refused and nothing
        changes; otherwise the spinner shows and the record is sent. */
    method Submit() returns (sent: bool)
      modifies this
      ensures sent <==> AmountAccepted(old(account.change))
      ensures !sent ==> unchanged(this)
      ensures sent ==> spinner && saves == old(saves) + [account]
      ensures account == old(account) && subTypes == old(subTypes) && listType == old(listType)
    {
      if !AmountAccepted(account.change) {
        return false;
      }
      spinner := true;
      saves := saves + [account];
      sent := true;
    }

    /** The save succeeded: a fresh record, no spinner; the sub-type list stays. */
    method SaveSucceeded(now: int)
      requires Valid()
      modifies this
      ensures Valid()
      ensures account == InitAccount(now) && !spinner
      ensures subTypes == old(subTypes) && listType == old(listType) && saves == old(saves)
    {
      SubTypesAreWellFormed();
      account, spinner := InitAccount(now), false;
    }

    /** The save failed: no spinner; the entered record is kept for another try. */
    method SaveFailed()
      modifies this
      ensures !spinner
      ensures account == old(account) && subTypes == old(subTypes)
      ensures listType == old(listType) && saves == old(saves)
    {
      spinner := false;
    }
  }

  /** Choosing "travel" and then leaving and re-entering the screen: the record is
      back to the default "eat" type while the picker still offers the travel list. */
  method StaleSubTypesAfterFocus(form: KeepAccountScreen, now: int)
    requires form.Valid()
    modifies form
    ensures form.Valid()
    ensures form.account.accountType == Eat && form.subTypes == SubTypes[Travel]
    ensures form.account.accountType != form.listType
  {
    TypesAreWellFormed();
    form.UpdateAccount(AccountUpdate(Some(Travel), None, None, None, None, None));
    form.Focus(now);
  }
}
