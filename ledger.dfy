/** The wallet's ledger as a value and its operations as state transitions:
    what each method of the Go Service does to the counter and the three
    insertion-ordered slices, and the invariant the operations keep. */
module Ledger {
  import opened Types

  /** The fields of the Go Service: the account-id counter and the
      accounts, payments and favorites in insertion order. */
  datatype State = State(nextAccountID: int, accounts: seq<Account>, payments: seq<Payment>, favorites: seq<Favorite>)

  /** The zero value `Service{}`. */
  const Empty: State := State(0, [], [], [])

  /** The new state together with the value or error an operation returns. */
  datatype Outcome<+T> = Outcome(after: State, result: Result<T>)

  // Lookups. Each is the linear search with `break`: the first record whose
  // id matches wins.

  function AccountIndex(accounts: seq<Account>, id: int): (r: Option<nat>)
    ensures r.Some? ==> r.value < |accounts| && accounts[r.value].id == id
    ensures r.Some? ==> forall j :: 0 <= j < r.value ==> accounts[j].id != id
    ensures r.None? <==> forall j :: 0 <= j < |accounts| ==> accounts[j].id != id
  {
    if |accounts| == 0 then None
    else if accounts[0].id == id then Some(0)
    else match AccountIndex(accounts[1..], id)
      case None => None
      case Some(i) => Some(i + 1)
  }

  function PaymentIndex(payments: seq<Payment>, id: string): (r: Option<nat>)
    ensures r.Some? ==> r.value < |payments| && payments[r.value].id == id
    ensures r.Some? ==> forall j :: 0 <= j < r.value ==> payments[j].id != id
    ensures r.None? <==> forall j :: 0 <= j < |payments| ==> payments[j].id != id
  {
    if |payments| == 0 then None
    else if payments[0].id == id then Some(0)
    else match PaymentIndex(payments[1..], id)
      case None => None
      case Some(i) => Some(i + 1)
  }

  function FavoriteIndex(favorites: seq<Favorite>, id: string): (r: Option<nat>)
    ensures r.Some? ==> r.value < |favorites| && favorites[r.value].id == id
    ensures r.Some? ==> forall j :: 0 <= j < r.value ==> favorites[j].id != id
    ensures r.None? <==> forall j :: 0 <= j < |favorites| ==> favorites[j].id != id
  {
    if |favorites| == 0 then None
    else if favorites[0].id == id then Some(0)
    else match FavoriteIndex(favorites[1..], id)
      case None => None
      case Some(i) => Some(i + 1)
  }

  predicate PhoneTaken(accounts: seq<Account>, phone: string) {
    exists j :: 0 <= j < |accounts| && accounts[j].phone == phone
  }

  /** `after` is `before` with only the balance of account `i` moved by
      `delta`: same length, same ids and phones, every other record equal. */
  predicate OnlyBalanceMoved(before: seq<Account>, after: seq<Account>, i: nat, delta: int) {
    && |after| == |before|
    && i < |before|
    && after[i].id == before[i].id
    && after[i].phone == before[i].phone
    && after[i].balance == before[i].balance + delta
    && forall j :: 0 <= j < |before| && j != i ==> after[j] == before[j]
  }

  /** A state with the balance of account `i` changed by `delta`. */
  function MoveBalance(l: State, i: nat, delta: int): (r: State)
    requires i < |l.accounts|
    ensures OnlyBalanceMoved(l.accounts, r.accounts, i, delta)
    ensures r.nextAccountID == l.nextAccountID && r.payments == l.payments && r.favorites == l.favorites
  {
    l.(accounts := l.accounts[i := l.accounts[i].(balance := l.accounts[i].balance + delta)])
  }

  // Operations of the service.

  /** RegisterAccount: a phone already on file is refused; otherwise the
      counter is incremented and a new account with that id, the phone and
      balance 0 is appended. */
  function RegisterAccount(l: State, phone: string): (r: Outcome<Account>)
    ensures r.result.Failure? <==> PhoneTaken(l.accounts, phone)
    ensures r.result.Failure? ==> r.result.error == PhoneRegistered && r.after == l
    ensures r.result.Success? ==>
      && r.result.value == Account(l.nextAccountID + 1, phone, 0)
      && r.after == State(l.nextAccountID + 1, l.accounts + [r.result.value], l.payments, l.favorites)
  {
    if PhoneTaken(l.accounts, phone) then Outcome(l, Failure(PhoneRegistered))
    else
      var account := Account(l.nextAccountID + 1, phone, 0);
      Outcome(l.(nextAccountID := account.id, accounts := l.accounts + [account]), Success(account))
  }

  /** Deposit: a non-positive amount is refused before the lookup, an
      unknown account next; otherwise only that account's balance grows. */
  function Deposit(l: State, accountID: int, amount: Money): (r: Outcome<()>)
    ensures r.result.Failure? ==> r.after == l
    ensures r.result == Failure(AmountMustBePositive) <==> amount <= 0
    ensures r.result == Failure(AccountNotFound) <==> amount > 0 && AccountIndex(l.accounts, accountID).None?
    ensures r.result.Success? <==> amount > 0 && AccountIndex(l.accounts, accountID).Some?
    ensures r.result.Success? ==>
      && AccountIndex(l.accounts, accountID).Some?
      && OnlyBalanceMoved(l.accounts, r.after.accounts, AccountIndex(l.accounts, accountID).value, amount)
      && r.after.nextAccountID == l.nextAccountID && r.after.payments == l.payments && r.after.favorites == l.favorites
  {
    if amount <= 0 then Outcome(l, Failure(AmountMustBePositive))
    else match AccountIndex(l.accounts, accountID)
      case None => Outcome(l, Failure(AccountNotFound))
      case Some(i) => Outcome(MoveBalance(l, i, amount), Success(()))
  }

  /** Pay: a non-positive amount, an unknown account and a balance below the
      amount are refused in that order; otherwise the balance drops by the
      amount (possibly to exactly 0) and one INPROGRESS payment is appended. */
  function Pay(l: State, accountID: int, amount: Money, category: string, paymentID: string): (r: Outcome<Payment>)
    ensures r.result.Failure? ==> r.after == l
    ensures r.result == Failure(AmountMustBePositive) <==> amount <= 0
    ensures r.result == Failure(AccountNotFound) <==> amount > 0 && AccountIndex(l.accounts, accountID).None?
    ensures r.result == Failure(NotEnoughBalance) <==>
      amount > 0 && AccountIndex(l.accounts, accountID).Some?
      && l.accounts[AccountIndex(l.accounts, accountID).value].balance < amount
    ensures r.result.Success? <==>
      amount > 0 && AccountIndex(l.accounts, accountID).Some?
      && l.accounts[AccountIndex(l.accounts, accountID).value].balance >= amount
    ensures r.result.Success? ==>
      && AccountIndex(l.accounts, accountID).Some?
      && var i := AccountIndex(l.accounts, accountID).value;
      && OnlyBalanceMoved(l.accounts, r.after.accounts, i, -amount)
      && r.after.accounts[i].balance >= 0
      && r.result.value == Payment(paymentID, accountID, amount, category, InProgress)
      && r.after.payments == l.payments + [r.result.value]
      && r.after.nextAccountID == l.nextAccountID && r.after.favorites == l.favorites
  {
    if amount <= 0 then Outcome(l, Failure(AmountMustBePositive))
    else match AccountIndex(l.accounts, accountID)
      case None => Outcome(l, Failure(AccountNotFound))
      case Some(i) =>
        if l.accounts[i].balance < amount then Outcome(l, Failure(NotEnoughBalance))
        else
          var payment := Payment(paymentID, accountID, amount, category, InProgress);
          var moved := MoveBalance(l, i, -amount);
          Outcome(moved.(payments := moved.payments + [payment]), Success(payment))
  }

  /** What Reject needs of the state: if the payment is found, so is its
      account. The Go code tests the wrong error variable after the account
      lookup and would dereference a nil account otherwise. */
  predicate RejectDefined(l: State, paymentID: string) {
    PaymentIndex(l.payments, paymentID).Some? ==>
      AccountIndex(l.accounts, l.payments[PaymentIndex(l.payments, paymentID).value].accountId).Some?
  }

  /** Reject: an unknown payment is refused; otherwise its status becomes
      FAIL and its amount goes back to the owning account, whatever the
      previous status was. */
  function Reject(l: State, paymentID: string): (r: Outcome<()>)
    requires RejectDefined(l, paymentID)
    ensures r.result.Failure? <==> PaymentIndex(l.payments, paymentID).None?
    ensures r.result.Failure? ==> r.result.error == PaymentNotFound && r.after == l
    ensures r.result.Success? ==>
      && PaymentIndex(l.payments, paymentID).Some?
      && var k := PaymentIndex(l.payments, paymentID).value;
      && var p := l.payments[k];
      && AccountIndex(l.accounts, p.accountId).Some?
      && OnlyBalanceMoved(l.accounts, r.after.accounts, AccountIndex(l.accounts, p.accountId).value, p.amount)
      && |r.after.payments| == |l.payments|
      && r.after.payments[k] == p.(status := Fail)
      && (forall j :: 0 <= j < |l.payments| && j != k ==> r.after.payments[j] == l.payments[j])
      && r.after.nextAccountID == l.nextAccountID && r.after.favorites == l.favorites
  {
    match PaymentIndex(l.payments, paymentID)
    case None => Outcome(l, Failure(PaymentNotFound))
    case Some(k) =>
      var payment := l.payments[k];
      var failed := l.(payments := l.payments[k := payment.(status := Fail)]);
      var i := AccountIndex(l.accounts, payment.accountId).value;
      Outcome(MoveBalance(failed, i, payment.amount), Success(()))
  }

  /** Repeat: an unknown payment is refused; otherwise Pay runs again with
      the original's account, amount and category. The original stays. */
  function Repeat(l: State, paymentID: string, newID: string): (r: Outcome<Payment>)
    ensures PaymentIndex(l.payments, paymentID).None? ==> r == Outcome(l, Failure(PaymentNotFound))
    ensures PaymentIndex(l.payments, paymentID).Some? ==>
      var p := l.payments[PaymentIndex(l.payments, paymentID).value];
      r == Pay(l, p.accountId, p.amount, p.category, newID)
    ensures r.result.Failure? ==> r.after == l
    ensures r.result.Success? ==>
      && PaymentIndex(l.payments, paymentID).Some?
      && var p := l.payments[PaymentIndex(l.payments, paymentID).value];
      && r.result.value == Payment(newID, p.accountId, p.amount, p.category, InProgress)
      && r.after.payments == l.payments + [r.result.value]
  {
    match PaymentIndex(l.payments, paymentID)
    case None => Outcome(l, Failure(PaymentNotFound))
    case Some(k) =>
      var payment := l.payments[k];
      Pay(l, payment.accountId, payment.amount, payment.category, newID)
  }

  /** FavoritePayment: an unknown payment is refused; otherwise a favorite
      copying its account, amount and category under the given name is
      appended. No balance changes. */
  function FavoritePayment(l: State, paymentID: string, name: string, favoriteID: string): (r: Outcome<Favorite>)
    ensures r.after.nextAccountID == l.nextAccountID && r.after.accounts == l.accounts && r.after.payments == l.payments
    ensures r.result.Failure? <==> PaymentIndex(l.payments, paymentID).None?
    ensures r.result.Failure? ==> r.result.error == PaymentNotFound && r.after == l
    ensures r.result.Success? ==>
      && PaymentIndex(l.payments, paymentID).Some?
      && var p := l.payments[PaymentIndex(l.payments, paymentID).value];
      && r.result.value == Favorite(favoriteID, p.accountId, name, p.amount, p.category)
      && r.after.favorites == l.favorites + [r.result.value]
  {
    match PaymentIndex(l.payments, paymentID)
    case None => Outcome(l, Failure(PaymentNotFound))
    case Some(k) =>
      var payment := l.payments[k];
      var favorite := Favorite(favoriteID, payment.accountId, name, payment.amount, payment.category);
      Outcome(l.(favorites := l.favorites + [favorite]), Success(favorite))
  }

  /** PayFromFavorite: an unknown favorite is refused; otherwise an
      INPROGRESS payment with the favorite's account, amount and category is
      appended. It does not go through Pay: no balance is checked or moved. */
  function PayFromFavorite(l: State, favoriteID: string, paymentID: string): (r: Outcome<Payment>)
    ensures r.after.nextAccountID == l.nextAccountID && r.after.accounts == l.accounts && r.after.favorites == l.favorites
    ensures r.result.Failure? <==> FavoriteIndex(l.favorites, favoriteID).None?
    ensures r.result.Failure? ==> r.result.error == FavoriteNotFound && r.after == l
    ensures r.result.Success? ==>
      && FavoriteIndex(l.favorites, favoriteID).Some?
      && var f := l.favorites[FavoriteIndex(l.favorites, favoriteID).value];
      && r.result.value == Payment(paymentID, f.accountId, f.amount, f.category, InProgress)
      && r.after.payments == l.payments + [r.result.value]
  {
    match FavoriteIndex(l.favorites, favoriteID)
    case None => Outcome(l, Failure(FavoriteNotFound))
    case Some(k) =>
      var favorite := l.favorites[k];
      var payment := Payment(paymentID, favorite.accountId, favorite.amount, favorite.category, InProgress);
      Outcome(l.(payments := l.payments + [payment]), Success(payment))
  }

  // The invariant the operations above keep (Import does not keep it).

  /** The counter is not negative; account ids are positive, strictly
      increasing in insertion order and no larger than the counter; phones
      are distinct; balances are not negative. */
  ghost predicate AccountsValid(accounts: seq<Account>, next: int) {
    && next >= 0
    && (forall j :: 0 <= j < |accounts| ==> 0 < accounts[j].id <= next)
    && (forall i, j :: 0 <= i < j < |accounts| ==> accounts[i].id < accounts[j].id)
    && (forall i, j :: 0 <= i < j < |accounts| ==> accounts[i].phone != accounts[j].phone)
    && (forall j :: 0 <= j < |accounts| ==> accounts[j].balance >= 0)
  }

  /** Every payment has a positive amount and refers to an account on file. */
  ghost predicate PaymentsOwned(payments: seq<Payment>, accounts: seq<Account>) {
    forall j :: 0 <= j < |payments| ==>
      payments[j].amount > 0 && AccountIndex(accounts, payments[j].accountId).Some?
  }

  /** Every favorite has a positive amount and refers to an account on file. */
  ghost predicate FavoritesOwned(favorites: seq<Favorite>, accounts: seq<Account>) {
    forall j :: 0 <= j < |favorites| ==>
      favorites[j].amount > 0 && AccountIndex(accounts, favorites[j].accountId).Some?
  }

  ghost predicate Valid(l: State) {
    && AccountsValid(l.accounts, l.nextAccountID)
    && PaymentsOwned(l.payments, l.accounts)
    && FavoritesOwned(l.favorites, l.accounts)
  }

  /** Moving one balance keeps every id lookup where it was. */
  lemma AccountIndexAfterMove(before: seq<Account>, after: seq<Account>, i: nat, delta: int, id: int)
    requires OnlyBalanceMoved(before, after, i, delta)
    ensures AccountIndex(after, id) == AccountIndex(before, id)
  {
    var a, b := AccountIndex(after, id), AccountIndex(before, id);
    if a.Some? {
      assert after[a.value].id == before[a.value].id;
    }
    if b.Some? {
      assert after[b.value].id == before[b.value].id;
    }
  }

  /** Appending an account keeps every lookup that already succeeded. */
  lemma AccountIndexAfterAppend(accounts: seq<Account>, a: Account, id: int)
    requires AccountIndex(accounts, id).Some?
    ensures AccountIndex(accounts + [a], id) == AccountIndex(accounts, id)
  {
    var k := AccountIndex(accounts, id).value;
    assert (accounts + [a])[k].id == id;
    var r := AccountIndex(accounts + [a], id);
    assert r.value <= k;
    assert r.value < |accounts| ==> (accounts + [a])[r.value] == accounts[r.value];
  }

  /** Payments and favorites stay owned when a balance moves. */
  lemma OwnedAfterMove(l: State, before: seq<Account>, after: seq<Account>, i: nat, delta: int)
    requires OnlyBalanceMoved(before, after, i, delta)
    requires PaymentsOwned(l.payments, before) && FavoritesOwned(l.favorites, before)
    ensures PaymentsOwned(l.payments, after) && FavoritesOwned(l.favorites, after)
  {
    forall j | 0 <= j < |l.payments|
      ensures AccountIndex(after, l.payments[j].accountId).Some?
    {
      AccountIndexAfterMove(before, after, i, delta, l.payments[j].accountId);
    }
    forall j | 0 <= j < |l.favorites|
      ensures AccountIndex(after, l.favorites[j].accountId).Some?
    {
      AccountIndexAfterMove(before, after, i, delta, l.favorites[j].accountId);
    }
  }

  /** Payments and favorites stay owned when an account is appended. */
  lemma OwnedAfterAppend(l: State, a: Account)
    requires PaymentsOwned(l.payments, l.accounts) && FavoritesOwned(l.favorites, l.accounts)
    ensures PaymentsOwned(l.payments, l.accounts + [a]) && FavoritesOwned(l.favorites, l.accounts + [a])
  {
    forall j | 0 <= j < |l.payments|
      ensures AccountIndex(l.accounts + [a], l.payments[j].accountId).Some?
    {
      AccountIndexAfterAppend(l.accounts, a, l.payments[j].accountId);
    }
    forall j | 0 <= j < |l.favorites|
      ensures AccountIndex(l.accounts + [a], l.favorites[j].accountId).Some?
    {
      AccountIndexAfterAppend(l.accounts, a, l.favorites[j].accountId);
    }
  }

  /** A balance moved to a value that is not negative keeps the accounts
      valid: ids and phones do not change. */
  lemma AccountsAfterMove(before: seq<Account>, after: seq<Account>, next: int, i: nat, delta: int)
    requires AccountsValid(before, next) && OnlyBalanceMoved(before, after, i, delta)
    requires after[i].balance >= 0
    ensures AccountsValid(after, next)
  {
    assert forall j :: 0 <= j < |after| ==> after[j].id == before[j].id && after[j].phone == before[j].phone;
  }

  lemma EmptyValid()
    ensures Valid(Empty)
  {
  }

  /** Under the invariant the new account is found by its id, at the end. */
  lemma RegisterThenFind(l: State, phone: string)
    requires Valid(l)
    requires RegisterAccount(l, phone).result.Success?
    ensures var r := RegisterAccount(l, phone);
      AccountIndex(r.after.accounts, r.result.value.id) == Some(|l.accounts|)
  {
    var r := RegisterAccount(l, phone);
    var accounts := r.after.accounts;
    forall j | 0 <= j < |l.accounts|
      ensures accounts[j].id != r.result.value.id
    {
      assert accounts[j] == l.accounts[j];
    }
    assert accounts[|l.accounts|] == r.result.value;
  }

  lemma RegisterPreservesValid(l: State, phone: string)
    requires Valid(l)
    ensures Valid(RegisterAccount(l, phone).after)
  {
    var r := RegisterAccount(l, phone);
    if r.result.Success? {
      var a := r.result.value;
      OwnedAfterAppend(l, a);
      RegisterAccountsValid(l.accounts, l.nextAccountID, phone);
    }
  }

  /** The account RegisterAccount appends keeps the accounts valid. */
  lemma RegisterAccountsValid(accounts: seq<Account>, next: int, phone: string)
    requires AccountsValid(accounts, next) && !PhoneTaken(accounts, phone)
    ensures AccountsValid(accounts + [Account(next + 1, phone, 0)], next + 1)
  {
    var n := accounts + [Account(next + 1, phone, 0)];
    assert forall j :: 0 <= j < |accounts| ==> n[j] == accounts[j];
    forall i, j | 0 <= i < j < |n|
      ensures n[i].phone != n[j].phone
    {
      if j == |accounts| {
        assert n[i] == accounts[i];
      }
    }
  }

  lemma MovePreservesValid(l: State, i: nat, delta: int)
    requires Valid(l) && i < |l.accounts| && l.accounts[i].balance + delta >= 0
    ensures Valid(MoveBalance(l, i, delta))
  {
    var n := MoveBalance(l, i, delta);
    OwnedAfterMove(l, l.accounts, n.accounts, i, delta);
    AccountsAfterMove(l.accounts, n.accounts, l.nextAccountID, i, delta);
  }

  lemma DepositPreservesValid(l: State, accountID: int, amount: Money)
    requires Valid(l)
    ensures Valid(Deposit(l, accountID, amount).after)
  {
    if amount > 0 && AccountIndex(l.accounts, accountID).Some? {
      MovePreservesValid(l, AccountIndex(l.accounts, accountID).value, amount);
    }
  }

  /** Appending a payment with a positive amount for an account on file
      keeps the payments owned. */
  lemma AppendPaymentOwned(payments: seq<Payment>, accounts: seq<Account>, p: Payment)
    requires PaymentsOwned(payments, accounts)
    requires p.amount > 0 && AccountIndex(accounts, p.accountId).Some?
    ensures PaymentsOwned(payments + [p], accounts)
  {
    var ps := payments + [p];
    assert forall j :: 0 <= j < |payments| ==> ps[j] == payments[j];
  }

  lemma AppendFavoriteOwned(favorites: seq<Favorite>, accounts: seq<Account>, f: Favorite)
    requires FavoritesOwned(favorites, accounts)
    requires f.amount > 0 && AccountIndex(accounts, f.accountId).Some?
    ensures FavoritesOwned(favorites + [f], accounts)
  {
    var fs := favorites + [f];
    assert forall j :: 0 <= j < |favorites| ==> fs[j] == favorites[j];
  }

  /** A successful Pay keeps the invariant: the balance cannot go below 0
      and the new payment's account is the one just charged. */
  lemma PayPreservesValid(l: State, accountID: int, amount: Money, category: string, paymentID: string)
    requires Valid(l)
    ensures Valid(Pay(l, accountID, amount, category, paymentID).after)
  {
    var r := Pay(l, accountID, amount, category, paymentID);
    if r.result.Success? {
      var i := AccountIndex(l.accounts, accountID).value;
      var payment := Payment(paymentID, accountID, amount, category, InProgress);
      var moved := MoveBalance(l, i, -amount).accounts;
      AccountsAfterMove(l.accounts, moved, l.nextAccountID, i, -amount);
      OwnedAfterMove(l, l.accounts, moved, i, -amount);
      AccountIndexAfterMove(l.accounts, moved, i, -amount, accountID);
      AppendPaymentOwned(l.payments, moved, payment);
      assert r.after == State(l.nextAccountID, moved, l.payments + [payment], l.favorites);
    }
  }

  /** Under the invariant Reject's own requirement always holds. */
  lemma ValidRejectDefined(l: State, paymentID: string)
    requires Valid(l)
    ensures RejectDefined(l, paymentID)
  {
  }

  lemma RejectPreservesValid(l: State, paymentID: string)
    requires Valid(l)
    ensures RejectDefined(l, paymentID)
    ensures Valid(Reject(l, paymentID).after)
  {
    ValidRejectDefined(l, paymentID);
    match PaymentIndex(l.payments, paymentID)
    case None =>
    case Some(k) =>
      var payment := l.payments[k];
      var failed := l.(payments := l.payments[k := payment.(status := Fail)]);
      var i := AccountIndex(l.accounts, payment.accountId).value;
      assert forall j :: 0 <= j < |l.payments| ==>
        failed.payments[j].accountId == l.payments[j].accountId && failed.payments[j].amount == l.payments[j].amount;
      MovePreservesValid(failed, i, payment.amount);
  }

  lemma FavoritePreservesValid(l: State, paymentID: string, name: string, favoriteID: string)
    requires Valid(l)
    ensures Valid(FavoritePayment(l, paymentID, name, favoriteID).after)
  {
    var r := FavoritePayment(l, paymentID, name, favoriteID);
    if r.result.Success? {
      var p := l.payments[PaymentIndex(l.payments, paymentID).value];
      AppendFavoriteOwned(l.favorites, l.accounts, r.result.value);
      assert r.after == l.(favorites := l.favorites + [r.result.value]);
    }
  }

  lemma PayFromFavoritePreservesValid(l: State, favoriteID: string, paymentID: string)
    requires Valid(l)
    ensures Valid(PayFromFavorite(l, favoriteID, paymentID).after)
  {
    var r := PayFromFavorite(l, favoriteID, paymentID);
    if r.result.Success? {
      var f := l.favorites[FavoriteIndex(l.favorites, favoriteID).value];
      AppendPaymentOwned(l.payments, l.accounts, r.result.value);
      assert r.after == l.(payments := l.payments + [r.result.value]);
    }
  }

  /** Rejecting a payment made by Pay gives the account its balance back
      and leaves every other account as it was. */
  lemma PayThenReject(l: State, accountID: int, amount: Money, category: string, paymentID: string)
    requires PaymentIndex(l.payments, paymentID).None?
    requires Pay(l, accountID, amount, category, paymentID).result.Success?
    ensures var paid := Pay(l, accountID, amount, category, paymentID).after;
      && RejectDefined(paid, paymentID)
      && Reject(paid, paymentID).result.Success?
      && Reject(paid, paymentID).after.accounts == l.accounts
      && Reject(paid, paymentID).after.payments[|l.payments|].status == Fail
  {
    var r := Pay(l, accountID, amount, category, paymentID);
    var paid := r.after;
    var i := AccountIndex(l.accounts, accountID).value;
    AccountIndexAfterMove(l.accounts, paid.accounts, i, -amount, accountID);
    AppendedFound(l.payments, r.result.value);
    var back := Reject(paid, paymentID).after;
    MovedBack(l.accounts, paid.accounts, back.accounts, i, amount);
  }

  /** A payment appended under an id not yet on file is found at the end. */
  lemma AppendedFound(payments: seq<Payment>, p: Payment)
    requires PaymentIndex(payments, p.id).None?
    ensures PaymentIndex(payments + [p], p.id) == Some(|payments|)
  {
    var ps := payments + [p];
    assert forall j :: 0 <= j < |payments| ==> ps[j] == payments[j];
    assert ps[|payments|] == p;
  }

  /** Taking an amount from one balance and giving it back restores the
      accounts. */
  lemma MovedBack(a: seq<Account>, b: seq<Account>, c: seq<Account>, i: nat, delta: int)
    requires OnlyBalanceMoved(a, b, i, -delta) && OnlyBalanceMoved(b, c, i, delta)
    ensures c == a
  {
    assert c[i] == a[i];
  }

  /** Reject has no guard on the previous status: a second Reject of the
      same payment succeeds and refunds the amount once more. */
  lemma RejectTwiceRefundsTwice(l: State, paymentID: string)
    requires RejectDefined(l, paymentID) && PaymentIndex(l.payments, paymentID).Some?
    ensures var once := Reject(l, paymentID).after;
      && RejectDefined(once, paymentID)
      && Reject(once, paymentID).result.Success?
      && var twice := Reject(once, paymentID).after;
      && var p := l.payments[PaymentIndex(l.payments, paymentID).value];
      && var i := AccountIndex(l.accounts, p.accountId).value;
      && twice.accounts[i].balance == l.accounts[i].balance + 2 * p.amount
  {
    var k := PaymentIndex(l.payments, paymentID).value;
    var p := l.payments[k];
    var i := AccountIndex(l.accounts, p.accountId).value;
    var once := Reject(l, paymentID).after;
    assert once.payments[k].id == paymentID;
    assert PaymentIndex(once.payments, paymentID) == Some(k);
    AccountIndexAfterMove(l.accounts, once.accounts, i, p.amount, p.accountId);
    assert once.payments[k].accountId == p.accountId && once.payments[k].amount == p.amount;
  }

  /** No payment on file has status OK. */
  predicate NoOk(payments: seq<Payment>) {
    forall j :: 0 <= j < |payments| ==> payments[j].status != Ok
  }

  /** The operations only ever produce INPROGRESS (Pay, Repeat,
      PayFromFavorite) and FAIL (Reject): a ledger without an OK payment
      keeps having none. */
  lemma OkNeverProduced(l: State, phone: string, accountID: int, amount: Money, category: string,
                        paymentID: string, newID: string, name: string, favoriteID: string)
    requires NoOk(l.payments) && RejectDefined(l, paymentID)
    ensures NoOk(RegisterAccount(l, phone).after.payments)
    ensures NoOk(Deposit(l, accountID, amount).after.payments)
    ensures NoOk(Pay(l, accountID, amount, category, newID).after.payments)
    ensures NoOk(Reject(l, paymentID).after.payments)
    ensures NoOk(Repeat(l, paymentID, newID).after.payments)
    ensures NoOk(FavoritePayment(l, paymentID, name, favoriteID).after.payments)
    ensures NoOk(PayFromFavorite(l, favoriteID, newID).after.payments)
  {
    PayKeepsNoOk(l, accountID, amount, category, newID);
    if PaymentIndex(l.payments, paymentID).Some? {
      var p := l.payments[PaymentIndex(l.payments, paymentID).value];
      PayKeepsNoOk(l, p.accountId, p.amount, p.category, newID);
    }
    AppendKeepsNoOk(l.payments, PayFromFavorite(l, favoriteID, newID));
  }

  lemma PayKeepsNoOk(l: State, accountID: int, amount: Money, category: string, paymentID: string)
    requires NoOk(l.payments)
    ensures NoOk(Pay(l, accountID, amount, category, paymentID).after.payments)
  {
    var r := Pay(l, accountID, amount, category, paymentID);
    if r.result.Success? {
      assert r.after.payments == l.payments + [r.result.value];
    }
  }

  lemma AppendKeepsNoOk(payments: seq<Payment>, r: Outcome<Payment>)
    requires NoOk(payments)
    requires r.result.Failure? ==> r.after.payments == payments
    requires r.result.Success? ==> r.result.value.status == InProgress && r.after.payments == payments + [r.result.value]
    ensures NoOk(r.after.payments)
  {
    if r.result.Success? {
      var ps := r.after.payments;
      assert forall j :: 0 <= j < |payments| ==> ps[j] == payments[j];
    }
  }
}
