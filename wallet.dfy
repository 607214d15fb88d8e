/** The Go Service itself: the counter and the three slices as fields, and
    each method as the step-by-step code it is (linear searches, in-place
    updates at the found index, the shard and chunk loops), proved against
    the state transitions and folds of the other modules. */
module Wallet {
  import opened Types
  import opened Decimal
  import opened Text
  import Ledger
  import opened Shards
  import Dump
  import opened History

  /** exportPayments: the records of the payments, written to `path`. */
  method ExportPayments(ps: seq<Payment>, path: string, fs: map<string, string>) returns (out: map<string, string>)
    ensures out == fs[path := HistoryText(ps)]
  {
    var pay := "";
    var j := 0;
    while j < |ps|
      invariant 0 <= j <= |ps|
      invariant pay == HistoryText(ps[..j])
    {
      assert ps[..j + 1][..j] == ps[..j];
      pay := pay + RecordText(ps[j]);
      j := j + 1;
    }
    assert ps[..j] == ps;
    out := fs[path := pay];
  }

  /** The lines, one per record, each followed by '\n': the loops that
      write accounts.dump, payments.dump and favorites.dump. */
  method WriteLines<T>(xs: seq<T>, line: T -> string) returns (text: string)
    ensures text == Unlines(Mapped(xs, line))
  {
    text := "";
    var j := 0;
    while j < |xs|
      invariant 0 <= j <= |xs|
      invariant text == Unlines(Mapped(xs[..j], line))
    {
      assert xs[..j + 1] == xs[..j] + [xs[j]];
      MappedSnoc(xs[..j], xs[j], line);
      UnlinesSnoc(Mapped(xs[..j], line), line(xs[j]));
      text := text + line(xs[j]) + "\n";
      j := j + 1;
    }
    assert xs[..j] == xs;
  }

  /** What one goroutine of SumPayments adds: the amounts of a range. */
  method SumRange(ps: seq<Payment>, lo: nat, hi: nat) returns (tmp: Money)
    requires lo <= hi <= |ps|
    ensures tmp == Total(ps[lo..hi])
  {
    var part := ps[lo..hi];
    tmp := 0;
    var j := 0;
    while j < |part|
      invariant 0 <= j <= |part|
      invariant tmp == Total(part[..j])
    {
      assert part[..j + 1][..j] == part[..j];
      tmp := tmp + part[j].amount;
      j := j + 1;
    }
    assert part[..j] == part;
  }

  /** What one goroutine of the filters appends: the accepted payments of
      a range, in order. */
  method FilterRange(ps: seq<Payment>, lo: nat, hi: nat, filter: Payment -> bool) returns (tmp: seq<Payment>)
    requires lo <= hi <= |ps|
    ensures tmp == Matching(ps[lo..hi], filter)
  {
    var part := ps[lo..hi];
    tmp := [];
    var j := 0;
    while j < |part|
      invariant 0 <= j <= |part|
      invariant tmp == Matching(part[..j], filter)
    {
      assert part[..j + 1][..j] == part[..j];
      if filter(part[j]) {
        tmp := tmp + [part[j]];
      }
      j := j + 1;
    }
    assert part[..j] == part;
  }

  /** One turn of the filters' spawning loop with index i: the last
      goroutine's buffer when i is the last index, then the buffer of the
      goroutine spawned when the current range has reached k payments,
      together with the new start of the range. */
  method FilterShard(ps: seq<Payment>, k: int, i: nat, count: nat, filter: Payment -> bool)
    returns (emitted: seq<Payment>, next: nat)
    requires count <= i < |ps|
    ensures next == if i - count == k then i else count
    ensures emitted + Pending(ps, k, i + 1, next, filter) == Pending(ps, k, i, count, filter)
  {
    FilterStep(ps, k, i, count, filter);
    var n := |ps|;
    emitted := [];
    next := count;
    if i == n - 1 {
      emitted := FilterRange(ps, count, n, filter);
    }
    if i - count == k {
      var tmp := FilterRange(ps, count, i, filter);
      emitted := emitted + tmp;
      next := count + k;
    }
  }
  /** The shard loop of FilterPayments and FilterPaymentsByFn, with the
      buffers appended in spawn order. */
  method ShardedFilter(ps: seq<Payment>, goroutines: int, filter: Payment -> bool) returns (r: seq<Payment>)
    requires goroutines != 0
    ensures r == ConcatAll(Buffers(ps, Schedule(|ps|, goroutines), filter))
    ensures r == Matching(ps, filter) + Matching(Duplicated(ps, goroutines), filter)
  {
    var n := |ps|;
    var k := Quota(n, goroutines);
    var count: nat := 0;
    ghost var whole := Pending(ps, k, 0, 0, filter);
    r := [];
    var i := 0;
    while i < n
      invariant count <= i <= n
      invariant r + Pending(ps, k, i, count, filter) == whole
    {
      var emitted, next := FilterShard(ps, k, i, count, filter);
      Reassociate(r, emitted, Pending(ps, k, i + 1, next, filter));
      r := r + emitted;
      count := next;
      i := i + 1;
    }
    PendingDone(ps, k, count, filter);
    EmptyAfter(r);
    FilterSchedule(ps, goroutines, filter);
  }

  /** One turn of HistoryToFiles' loop with index i (counting from 1): the
      last, partial file when i is the last index, and the full file of
      `records` payments when the current chunk reached that size. */
  method HistoryTurn(ps: seq<Payment>, dir: string, records: int, count: nat, i: nat, fileNumber: int, out: map<string, string>)
    returns (out': map<string, string>, count': nat, fileNumber': int)
    requires count < i <= |ps|
    requires records > 0 ==> i - 1 - count < records
    requires records <= 0 ==> count == 0 && fileNumber == 1
    ensures count' < i + 1
    ensures records > 0 ==> i - count' < records
    ensures records <= 0 ==> count' == 0 && fileNumber' == 1
    ensures i < |ps| ==> Unwritten(out', ps, count', records, dir, fileNumber') == Unwritten(out, ps, count, records, dir, fileNumber)
    ensures i == |ps| ==> out' == Unwritten(out, ps, count, records, dir, fileNumber)
  {
    var n := |ps|;
    var fileName := NumberedPath(dir, fileNumber);
    var full := i - count == records;
    out', count', fileNumber' := out, count, fileNumber;
    if full {
      out' := ExportPayments(ps[count..i], fileName, out);
      HistoryStep(out, out', ps, count, i, records, dir, fileNumber);
      count' := count + records;
      fileNumber' := fileNumber + 1;
      assert count' == i;
    } else if i == n {
      out' := ExportPayments(ps[count..i], fileName, out);
      HistoryStep(out, out', ps, count, i, records, dir, fileNumber);
    }
  }

  class Service {
    var nextAccountID: int
    var accounts: seq<Account>
    var payments: seq<Payment>
    var favorites: seq<Favorite>

    /** The fields as a ledger value. */
    function State(): Ledger.State
      reads this
    {
      Ledger.State(nextAccountID, accounts, payments, favorites)
    }

    /** The zero value `Service{}`. */
    constructor ()
      ensures State() == Ledger.Empty
    {
      nextAccountID := 0;
      accounts := [];
      payments := [];
      favorites := [];
    }

    // The linear searches behind FindAccountByID, FindPaymentByID and
    // FindFavoriteByID. The index stands for the *types.Account (and so on)
    // Go returns: a write through it is an update of the element at the index.

    method FindAccountIndex(accountID: int) returns (r: Option<nat>)
      ensures r == Ledger.AccountIndex(accounts, accountID)
    {
      var i := 0;
      while i < |accounts|
        invariant 0 <= i <= |accounts|
        invariant forall j :: 0 <= j < i ==> accounts[j].id != accountID
      {
        if accounts[i].id == accountID {
          return Some(i);
        }
        i := i + 1;
      }
      return None;
    }

    method FindPaymentIndex(paymentID: string) returns (r: Option<nat>)
      ensures r == Ledger.PaymentIndex(payments, paymentID)
    {
      var i := 0;
      while i < |payments|
        invariant 0 <= i <= |payments|
        invariant forall j :: 0 <= j < i ==> payments[j].id != paymentID
      {
        if payments[i].id == paymentID {
          return Some(i);
        }
        i := i + 1;
      }
      return None;
    }

    method FindFavoriteIndex(favoriteID: string) returns (r: Option<nat>)
      ensures r == Ledger.FavoriteIndex(favorites, favoriteID)
    {
      var i := 0;
      while i < |favorites|
        invariant 0 <= i <= |favorites|
        invariant forall j :: 0 <= j < i ==> favorites[j].id != favoriteID
      {
        if favorites[i].id == favoriteID {
          return Some(i);
        }
        i := i + 1;
      }
      return None;
    }

    /** FindAccountByID: the first account with the id, or "account not
        found" when none has it. */
    method FindAccountByID(accountID: int) returns (r: Result<Account>)
      ensures r.Failure? <==> forall j :: 0 <= j < |accounts| ==> accounts[j].id != accountID
      ensures r.Failure? ==> r.error == AccountNotFound
      ensures r.Success? ==> exists i :: (0 <= i < |accounts| && accounts[i] == r.value
        && r.value.id == accountID && forall j :: 0 <= j < i ==> accounts[j].id != accountID)
    {
      var index := FindAccountIndex(accountID);
      if index.None? {
        return Failure(AccountNotFound);
      }
      r := Success(accounts[index.value]);
    }

    method FindPaymentByID(paymentID: string) returns (r: Result<Payment>)
      ensures r.Failure? <==> forall j :: 0 <= j < |payments| ==> payments[j].id != paymentID
      ensures r.Failure? ==> r.error == PaymentNotFound
      ensures r.Success? ==> exists i :: (0 <= i < |payments| && payments[i] == r.value
        && r.value.id == paymentID && forall j :: 0 <= j < i ==> payments[j].id != paymentID)
    {
      var index := FindPaymentIndex(paymentID);
      if index.None? {
        return Failure(PaymentNotFound);
      }
      r := Success(payments[index.value]);
    }

    method FindFavoriteByID(favoriteID: string) returns (r: Result<Favorite>)
      ensures r.Failure? <==> forall j :: 0 <= j < |favorites| ==> favorites[j].id != favoriteID
      ensures r.Failure? ==> r.error == FavoriteNotFound
      ensures r.Success? ==> exists i :: (0 <= i < |favorites| && favorites[i] == r.value
        && r.value.id == favoriteID && forall j :: 0 <= j < i ==> favorites[j].id != favoriteID)
    {
      var index := FindFavoriteIndex(favoriteID);
      if index.None? {
        return Failure(FavoriteNotFound);
      }
      r := Success(favorites[index.value]);
    }

    // The operations that change the ledger.

    method RegisterAccount(phone: string) returns (r: Result<Account>)
      modifies this
      ensures Ledger.Outcome(State(), r) == Ledger.RegisterAccount(old(State()), phone)
    {
      var i := 0;
      while i < |accounts|
        invariant 0 <= i <= |accounts|
        invariant forall j :: 0 <= j < i ==> accounts[j].phone != phone
      {
        if accounts[i].phone == phone {
          return Failure(PhoneRegistered);
        }
        i := i + 1;
      }
      nextAccountID := nextAccountID + 1;
      var account := Account(nextAccountID, phone, 0);
      accounts := accounts + [account];
      r := Success(account);
    }

    method Deposit(accountID: int, amount: Money) returns (r: Result<()>)
      modifies this
      ensures Ledger.Outcome(State(), r) == Ledger.Deposit(old(State()), accountID, amount)
    {
      if amount <= 0 {
        return Failure(AmountMustBePositive);
      }
      var index := FindAccountIndex(accountID);
      if index.None? {
        return Failure(AccountNotFound);
      }
      var i := index.value;
      accounts := accounts[i := accounts[i].(balance := accounts[i].balance + amount)];
      r := Success(());
    }

    /** Pay, with the id uuid.New would produce passed in. */
    method Pay(accountID: int, amount: Money, category: string, paymentID: string) returns (r: Result<Payment>)
      modifies this
      ensures Ledger.Outcome(State(), r) == Ledger.Pay(old(State()), accountID, amount, category, paymentID)
    {
      if amount <= 0 {
        return Failure(AmountMustBePositive);
      }
      var index := FindAccountIndex(accountID);
      if index.None? {
        return Failure(AccountNotFound);
      }
      var i := index.value;
      if accounts[i].balance < amount {
        return Failure(NotEnoughBalance);
      }
      accounts := accounts[i := accounts[i].(balance := accounts[i].balance - amount)];
      var payment := Payment(paymentID, accountID, amount, category, InProgress);
      payments := payments + [payment];
      r := Success(payment);
    }

    /** Reject. The Go code checks the error of the payment lookup a second
        time instead of that of the account lookup, so it only works when
        the payment's account is on file, which the precondition states. */
    method Reject(paymentID: string) returns (r: Result<()>)
      requires Ledger.RejectDefined(State(), paymentID)
      modifies this
      ensures Ledger.Outcome(State(), r) == Ledger.Reject(old(State()), paymentID)
    {
      var found := FindPaymentIndex(paymentID);
      if found.None? {
        return Failure(PaymentNotFound);
      }
      var k := found.value;
      var payment := payments[k];
      payments := payments[k := payment.(status := Fail)];
      var index := FindAccountIndex(payment.accountId);
      var i := index.value;
      accounts := accounts[i := accounts[i].(balance := accounts[i].balance + payment.amount)];
      r := Success(());
    }

    method Repeat(paymentID: string, newID: string) returns (r: Result<Payment>)
      modifies this
      ensures Ledger.Outcome(State(), r) == Ledger.Repeat(old(State()), paymentID, newID)
    {
      var found := FindPaymentIndex(paymentID);
      if found.None? {
        return Failure(PaymentNotFound);
      }
      var payment := payments[found.value];
      r := Pay(payment.accountId, payment.amount, payment.category, newID);
    }

    method FavoritePayment(paymentID: string, name: string, favoriteID: string) returns (r: Result<Favorite>)
      modifies this
      ensures Ledger.Outcome(State(), r) == Ledger.FavoritePayment(old(State()), paymentID, name, favoriteID)
    {
      var found := FindPaymentIndex(paymentID);
      if found.None? {
        return Failure(PaymentNotFound);
      }
      var payment := payments[found.value];
      var favorite := Favorite(favoriteID, payment.accountId, name, payment.amount, payment.category);
      favorites := favorites + [favorite];
      r := Success(favorite);
    }

    method PayFromFavorite(favoriteID: string, paymentID: string) returns (r: Result<Payment>)
      modifies this
      ensures Ledger.Outcome(State(), r) == Ledger.PayFromFavorite(old(State()), favoriteID, paymentID)
    {
      var found := FindFavoriteIndex(favoriteID);
      if found.None? {
        return Failure(FavoriteNotFound);
      }
      var favorite := favorites[found.value];
      var payment := Payment(paymentID, favorite.accountId, favorite.amount, favorite.category, InProgress);
      payments := payments + [payment];
      r := Success(payment);
    }

    // The per-goroutine folds and the shard loops.

    /** SumPayments: with 0 or 1 goroutines the sum of all amounts; with
        more, the ranges of the shard schedule are summed, so the range the
        last index spawns twice is counted twice. */
    method SumPayments(goroutines: int) returns (result: Money)
      ensures result == Total(payments) + Total(Duplicated(payments, goroutines))
      ensures !DoubleCounted(|payments|, if goroutines == 0 then 0 else Quota(|payments|, goroutines)) ==> result == Total(payments)
    {
      var ps := payments;
      var n := |ps|;
      if goroutines == 0 || goroutines == 1 {
        result := SumRange(ps, 0, n);
        assert ps[0..n] == ps;
        return;
      }
      var k := Quota(n, goroutines);
      var count: nat := 0;
      ghost var whole := Total(Flatten(ps, Schedule(n, goroutines)));
      result := 0;
      var i := 0;
      while i < n
        invariant count <= i <= n
        invariant result + Total(Flatten(ps, ShardsFrom(n, k, i, count))) == whole
      {
        SumStep(ps, k, i, count);
        ghost var c: nat := if i - count == k then i else count;
        ghost var later := Total(Flatten(ps, ShardsFrom(n, k, i + 1, c)));
        ghost var second := if i - count == k then Total(ps[count..i]) else 0;
        if i == n - 1 {
          var tmp := SumRange(ps, count, n);
          result := result + tmp;
        }
        assert result + second + later == whole;
        if i - count == k {
          var tmp := SumRange(ps, count, i);
          result := result + tmp;
          count := count + k;
        }
        assert count == c;
        i := i + 1;
      }
      SumOfSchedule(ps, goroutines);
    }

    /** ExportAccountHistory. */
    method ExportAccountHistory(accountID: int) returns (r: Result<seq<Payment>>)
      ensures r == AccountHistory(State(), accountID)
    {
      var account := FindAccountIndex(accountID);
      if account.None? {
        return Failure(AccountNotFound);
      }
      if |payments| == 0 {
        return Failure(PaymentsNotFound);
      }
      var found := FilterRange(payments, 0, |payments|, OfAccount(accountID));
      assert payments[0..|payments|] == payments;
      r := Success(found);
    }

    /** FilterPayments: with 0 or 1 goroutines the account history; with
        more, an unknown account is refused and otherwise the sharded filter
        runs, even over an empty ledger. */
    method FilterPayments(accountID: int, goroutines: int) returns (r: Result<seq<Payment>>)
      ensures goroutines == 0 || goroutines == 1 ==> r == AccountHistory(State(), accountID)
      ensures goroutines != 0 && goroutines != 1 ==>
        && (r.Failure? <==> Ledger.AccountIndex(accounts, accountID).None?)
        && (r.Failure? ==> r.error == AccountNotFound)
        && (r.Success? ==> r.value == Matching(payments, OfAccount(accountID)) + Matching(Duplicated(payments, goroutines), OfAccount(accountID)))
    {
      if goroutines == 0 || goroutines == 1 {
        r := ExportAccountHistory(accountID);
        return;
      }
      var account := FindAccountIndex(accountID);
      if account.None? {
        return Failure(AccountNotFound);
      }
      var found := ShardedFilter(payments, goroutines, OfAccount(accountID));
      r := Success(found);
    }

    /** FilterPaymentsByFn; its error result is always nil and is left out. */
    method FilterPaymentsByFn(filter: Payment -> bool, goroutines: int) returns (r: seq<Payment>)
      ensures r == Matching(payments, filter) + Matching(Duplicated(payments, goroutines), filter)
    {
      if goroutines == 0 || goroutines == 1 {
        r := FilterRange(payments, 0, |payments|, filter);
        assert payments[0..|payments|] == payments;
        assert Duplicated(payments, goroutines) == [];
        return;
      }
      r := ShardedFilter(payments, goroutines, filter);
    }

    /** HistoryToFiles, with the file system passed in and returned. */
    method HistoryToFiles(ps: seq<Payment>, dir: string, records: int, fs: map<string, string>) returns (out: map<string, string>)
      ensures out == WriteAll(fs, HistoryFiles(ps, dir, records))
    {
      var n := |ps|;
      if n == 0 {
        return fs;
      }
      if n <= records {
        out := ExportPayments(ps, dir + "/payments.dump", fs);
        return;
      }
      HistoryFilesNumbered(fs, ps, dir, records);
      ghost var target := Unwritten(fs, ps, 0, records, dir, 1);
      out := fs;
      var fileNumber := 1;
      var count: nat := 0;
      var i := 1;
      while i <= n
        invariant 1 <= i <= n + 1 && count < i
        invariant records > 0 ==> i - 1 - count < records
        invariant records <= 0 ==> count == 0 && fileNumber == 1
        invariant i <= n ==> Unwritten(out, ps, count, records, dir, fileNumber) == target
        invariant i == n + 1 ==> out == target
      {
        out, count, fileNumber := HistoryTurn(ps, dir, records, count, i, fileNumber, out);
        i := i + 1;
      }
    }

    // Export and Import.

    /** Export: the dump files of the non-empty collections. */
    method Export(dir: string, fs: map<string, string>) returns (out: map<string, string>)
      ensures out == Dump.Export(State(), dir, fs)
    {
      ghost var l := State();
      var acc, ps, fav := accounts, payments, favorites;
      out := fs;
      if |acc| != 0 {
        var text := WriteLines(acc, Dump.AccountLine);
        out := out[Dump.AccountsPath(dir) := text];
      }
      assert out == if l.accounts == [] then fs else fs[Dump.AccountsPath(dir) := Dump.AccountsText(l.accounts)];
      ghost var withAccounts := out;
      if |ps| != 0 {
        var text := WriteLines(ps, Dump.PaymentLine);
        out := out[Dump.PaymentsPath(dir) := text];
      }
      assert out == if l.payments == [] then withAccounts else withAccounts[Dump.PaymentsPath(dir) := Dump.PaymentsText(l.payments)];
      ghost var withPayments := out;
      if |fav| != 0 {
        var text := WriteLines(fav, Dump.FavoriteLine);
        out := out[Dump.FavoritesPath(dir) := text];
      }
      assert out == if l.favorites == [] then withPayments else withPayments[Dump.FavoritesPath(dir) := Dump.FavoritesText(l.favorites)];
    }

    /** The accounts.dump loop of Import over the complete lines read. */
    method ImportAccounts(lines: seq<string>) returns (r: Result<()>)
      modifies this
      ensures Ledger.Outcome(State(), r) == Dump.MergeAccounts(old(State()), Mapped(lines, Dump.ParseAccount))
    {
      ghost var parsed := Mapped(lines, Dump.ParseAccount);
      ghost var target := Dump.MergeAccounts(State(), parsed);
      var j := 0;
      while j < |lines|
        invariant 0 <= j <= |lines|
        invariant Dump.MergeAccounts(State(), parsed[j..]) == target
      {
        assert parsed[j..][1..] == parsed[j + 1..];
        var line := Dump.ParseAccount(lines[j]);
        if line.Failure? {
          return Failure(line.error);
        }
        var account := line.value;
        var known := FindAccountIndex(account.id);
        if known.None? {
          accounts := accounts + [account];
          nextAccountID := account.id;
        }
        j := j + 1;
      }
      assert parsed[j..] == [];
      r := Success(());
    }

    /** The payments.dump loop of Import. */
    method ImportPayments(lines: seq<string>) returns (r: Result<()>)
      modifies this
      ensures Ledger.Outcome(State(), r) == Dump.MergePayments(old(State()), Mapped(lines, Dump.ParsePaymentHead))
    {
      ghost var parsed := Mapped(lines, Dump.ParsePaymentHead);
      ghost var target := Dump.MergePayments(State(), parsed);
      var j := 0;
      while j < |lines|
        invariant 0 <= j <= |lines|
        invariant Dump.MergePayments(State(), parsed[j..]) == target
      {
        assert parsed[j..][1..] == parsed[j + 1..];
        var line := Dump.ParsePaymentHead(lines[j]);
        if line.Failure? {
          return Failure(line.error);
        }
        var h := line.value;
        var known := FindPaymentIndex(h.id);
        if known.None? {
          if |h.rest| < 2 {
            return Failure(IndexOutOfRange);
          }
          payments := payments + [Payment(h.id, h.accountId, h.amount, h.rest[0], StatusOf(h.rest[1]))];
        }
        j := j + 1;
      }
      assert parsed[j..] == [];
      r := Success(());
    }

    /** The favorites.dump loop of Import. */
    method ImportFavorites(lines: seq<string>) returns (r: Result<()>)
      modifies this
      ensures Ledger.Outcome(State(), r) == Dump.MergeFavorites(old(State()), Mapped(lines, Dump.ParseFavoriteHead))
    {
      ghost var parsed := Mapped(lines, Dump.ParseFavoriteHead);
      ghost var target := Dump.MergeFavorites(State(), parsed);
      var j := 0;
      while j < |lines|
        invariant 0 <= j <= |lines|
        invariant Dump.MergeFavorites(State(), parsed[j..]) == target
      {
        assert parsed[j..][1..] == parsed[j + 1..];
        var line := Dump.ParseFavoriteHead(lines[j]);
        if line.Failure? {
          return Failure(line.error);
        }
        var h := line.value;
        var known := FindFavoriteIndex(h.id);
        if known.None? {
          if |h.rest| < 1 {
            return Failure(IndexOutOfRange);
          }
          favorites := favorites + [Favorite(h.id, h.accountId, h.name, h.amount, h.rest[0])];
        }
        j := j + 1;
      }
      assert parsed[j..] == [];
      r := Success(());
    }

    /** Import: accounts, payments, favorites; a missing file is skipped. */
    method Import(dir: string, fs: map<string, string>) returns (r: Result<()>)
      modifies this
      ensures Ledger.Outcome(State(), r) == Dump.Import(old(State()), dir, fs)
    {
      r := ImportAccounts(Dump.FileLines(fs, Dump.AccountsPath(dir)));
      if r.Failure? {
        return;
      }
      r := ImportPayments(Dump.FileLines(fs, Dump.PaymentsPath(dir)));
      if r.Failure? {
        return;
      }
      r := ImportFavorites(Dump.FileLines(fs, Dump.FavoritesPath(dir)));
    }
  }
}
