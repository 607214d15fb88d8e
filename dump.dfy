/** The dump files of Service.Export and Service.Import: one record per
    line, fields separated by ';', numbers in decimal. Export writes one
    file per non-empty collection; Import reads the complete lines of each
    file present and merges the records by id.

    The file system is a map from path to file content. */
module Dump {
  import opened Types
  import opened Decimal
  import opened Text
  import opened Ledger

  function AccountsPath(dir: string): string {
    dir + "/accounts.dump"
  }

  function PaymentsPath(dir: string): string {
    dir + "/payments.dump"
  }

  function FavoritesPath(dir: string): string {
    dir + "/favorites.dump"
  }

  /** The three dump files of a directory have different paths. */
  lemma PathsDistinct(dir: string)
    ensures AccountsPath(dir) != PaymentsPath(dir)
    ensures AccountsPath(dir) != FavoritesPath(dir)
    ensures PaymentsPath(dir) != FavoritesPath(dir)
  {
    var n := |dir| + 1;
    assert AccountsPath(dir)[n] == 'a';
    assert PaymentsPath(dir)[n] == 'p';
    assert FavoritesPath(dir)[n] == 'f';
  }

  // Line formats of Export, field order as in the record types.

  function AccountLine(a: Account): string {
    Itoa(a.id) + ";" + a.phone + ";" + Itoa(a.balance)
  }

  function PaymentLine(p: Payment): string {
    p.id + ";" + Itoa(p.accountId) + ";" + Itoa(p.amount) + ";" + p.category + ";" + StatusText(p.status)
  }

  function FavoriteLine(f: Favorite): string {
    f.id + ";" + Itoa(f.accountId) + ";" + f.name + ";" + Itoa(f.amount) + ";" + f.category
  }

  function AccountsText(accounts: seq<Account>): string {
    Unlines(Mapped(accounts, AccountLine))
  }

  function PaymentsText(payments: seq<Payment>): string {
    Unlines(Mapped(payments, PaymentLine))
  }

  function FavoritesText(favorites: seq<Favorite>): string {
    Unlines(Mapped(favorites, FavoriteLine))
  }

  /** The files Export writes: one per non-empty collection. */
  function Written(l: State, dir: string): set<string> {
    (if l.accounts == [] then {} else {AccountsPath(dir)})
    + (if l.payments == [] then {} else {PaymentsPath(dir)})
    + (if l.favorites == [] then {} else {FavoritesPath(dir)})
  }

  /** Export: each non-empty collection is written to its file, replacing
      what was there; an empty collection writes nothing, so an older dump
      of it stays; every other file is untouched. */
  function Export(l: State, dir: string, fs: map<string, string>): (r: map<string, string>)
    ensures l.accounts != [] ==> AccountsPath(dir) in r && r[AccountsPath(dir)] == AccountsText(l.accounts)
    ensures l.payments != [] ==> PaymentsPath(dir) in r && r[PaymentsPath(dir)] == PaymentsText(l.payments)
    ensures l.favorites != [] ==> FavoritesPath(dir) in r && r[FavoritesPath(dir)] == FavoritesText(l.favorites)
    ensures forall path :: path !in Written(l, dir) ==>
      (path in r <==> path in fs) && (path in fs ==> r[path] == fs[path])
  {
    PathsDistinct(dir);
    var withAccounts := if l.accounts == [] then fs else fs[AccountsPath(dir) := AccountsText(l.accounts)];
    var withPayments := if l.payments == [] then withAccounts else withAccounts[PaymentsPath(dir) := PaymentsText(l.payments)];
    if l.favorites == [] then withPayments else withPayments[FavoritesPath(dir) := FavoritesText(l.favorites)]
  }

  // Parsing, in the order the Go code indexes the fields and converts them:
  // an index past the last field is a run-time panic there, modelled as the
  // error IndexOutOfRange. What a line yields does not depend on the ledger,
  // so every line is parsed first and the merge then runs over the results
  // in order, stopping at the first error, as the Go loop does.

  /** An accounts.dump line: field 0 is converted, then field 2 is indexed
      and converted. */
  function ParseAccount(line: string): Result<Account> {
    var f := Split(line, ';');
    var id :- Atoi(f[0]);
    if |f| < 3 then Failure(IndexOutOfRange)
    else
      var balance :- Atoi(f[2]);
      Success(Account(id, f[1], balance))
  }

  /** What a payments.dump line yields before the id is looked up: the id,
      the converted fields 1 and 2, and the fields after them. */
  datatype PaymentHead = PaymentHead(id: string, accountId: int, amount: Money, rest: seq<string>)

  function ParsePaymentHead(line: string): Result<PaymentHead> {
    var f := Split(line, ';');
    if |f| < 2 then Failure(IndexOutOfRange)
    else
      var accountId :- Atoi(f[1]);
      if |f| < 3 then Failure(IndexOutOfRange)
      else
        var amount :- Atoi(f[2]);
        Success(PaymentHead(f[0], accountId, amount, f[3..]))
  }

  /** What a favorites.dump line yields before the id is looked up: fields
      1 and 3 are converted, field 2 (the name) lies before field 3. */
  datatype FavoriteHead = FavoriteHead(id: string, accountId: int, name: string, amount: Money, rest: seq<string>)

  function ParseFavoriteHead(line: string): Result<FavoriteHead> {
    var f := Split(line, ';');
    if |f| < 2 then Failure(IndexOutOfRange)
    else
      var accountId :- Atoi(f[1]);
      if |f| < 4 then Failure(IndexOutOfRange)
      else
        var amount :- Atoi(f[3]);
        Success(FavoriteHead(f[0], accountId, f[2], amount, f[4..]))
  }

  // Merging by id.

  /** An account whose id is already on file is skipped; a new one is
      appended and the counter is set to its id. */
  function MergeAccount(l: State, a: Account): State {
    if AccountIndex(l.accounts, a.id).Some? then l
    else l.(accounts := l.accounts + [a], nextAccountID := a.id)
  }

  /** A payment whose id is on file is skipped before its category and
      status are read; a new one needs fields 3 and 4. */
  function MergePayment(payments: seq<Payment>, h: PaymentHead): Result<seq<Payment>> {
    if PaymentIndex(payments, h.id).Some? then Success(payments)
    else if MissesPaymentFields(h) then Failure(IndexOutOfRange)
    else Success(payments + [HeadPayment(h)])
  }

  /** A payments.dump line without its category or status field. */
  predicate MissesPaymentFields(h: PaymentHead) {
    |h.rest| < 2
  }

  /** The payment a complete head describes; a missing field reads as
      empty here, which no merge uses. */
  function HeadPayment(h: PaymentHead): Payment {
    Payment(h.id, h.accountId, h.amount, if |h.rest| > 0 then h.rest[0] else "",
      StatusOf(if |h.rest| > 1 then h.rest[1] else ""))
  }

  /** A favorite whose id is on file is skipped before its category is
      read; a new one needs field 4. */
  function MergeFavorite(favorites: seq<Favorite>, h: FavoriteHead): Result<seq<Favorite>> {
    if FavoriteIndex(favorites, h.id).Some? then Success(favorites)
    else if MissesFavoriteField(h) then Failure(IndexOutOfRange)
    else Success(favorites + [HeadFavorite(h)])
  }

  /** A favorites.dump line without its category field. */
  predicate MissesFavoriteField(h: FavoriteHead) {
    |h.rest| < 1
  }

  /** The favorite a complete head describes. */
  function HeadFavorite(h: FavoriteHead): Favorite {
    Favorite(h.id, h.accountId, h.name, h.amount, if |h.rest| > 0 then h.rest[0] else "")
  }

  /** The last id the counter was set to by the accounts of `after` beyond
      the first `n`, or `before` if there are none. */
  function CounterAfter(before: int, after: seq<Account>, n: nat): int
    requires n <= |after|
  {
    if |after| == n then before else after[|after| - 1].id
  }

  lemma KeepsPrefix<T>(a: seq<T>, b: seq<T>, c: seq<T>)
    requires |a| <= |b| <= |c| && b[..|a|] == a && c[..|b|] == b
    ensures c[..|a|] == a
  {
    assert c[..|a|] == c[..|b|][..|a|];
  }

  /** Merging parsed account lines one by one. The first line that did not
      parse stops the import with its error; the accounts merged before it
      are kept. Old accounts stay at the front and the counter ends at the
      id of the last account appended: the last one, not the largest. */
  function MergeAccounts(l: State, parsed: seq<Result<Account>>): (r: Outcome<()>)
    ensures |l.accounts| <= |r.after.accounts| && r.after.accounts[..|l.accounts|] == l.accounts
    ensures r.after.payments == l.payments && r.after.favorites == l.favorites
    ensures r.after.nextAccountID == CounterAfter(l.nextAccountID, r.after.accounts, |l.accounts|)
    decreases |parsed|
  {
    if parsed == [] then Outcome(l, Success(()))
    else
      match parsed[0]
      case Failure(e) => Outcome(l, Failure(e))
      case Success(a) =>
        var m := MergeAccount(l, a);
        var r := MergeAccounts(m, parsed[1..]);
        assert m.accounts[..|l.accounts|] == l.accounts;
        KeepsPrefix(l.accounts, m.accounts, r.after.accounts);
        r
  }

  /** Merging parsed payment lines: one by one, stopping at the first error
      with the payments merged until then kept. */
  function MergePayments(l: State, parsed: seq<Result<PaymentHead>>): (r: Outcome<()>)
    ensures |l.payments| <= |r.after.payments| && r.after.payments[..|l.payments|] == l.payments
    ensures r.after.nextAccountID == l.nextAccountID && r.after.accounts == l.accounts && r.after.favorites == l.favorites
    decreases |parsed|
  {
    if parsed == [] then Outcome(l, Success(()))
    else
      match parsed[0]
      case Failure(e) => Outcome(l, Failure(e))
      case Success(h) =>
        match MergePayment(l.payments, h)
        case Failure(e) => Outcome(l, Failure(e))
        case Success(payments) =>
          var m := l.(payments := payments);
          var r := MergePayments(m, parsed[1..]);
          assert m.payments[..|l.payments|] == l.payments;
          KeepsPrefix(l.payments, m.payments, r.after.payments);
          r
  }

  function MergeFavorites(l: State, parsed: seq<Result<FavoriteHead>>): (r: Outcome<()>)
    ensures |l.favorites| <= |r.after.favorites| && r.after.favorites[..|l.favorites|] == l.favorites
    ensures r.after.nextAccountID == l.nextAccountID && r.after.accounts == l.accounts && r.after.payments == l.payments
    decreases |parsed|
  {
    if parsed == [] then Outcome(l, Success(()))
    else
      match parsed[0]
      case Failure(e) => Outcome(l, Failure(e))
      case Success(h) =>
        match MergeFavorite(l.favorites, h)
        case Failure(e) => Outcome(l, Failure(e))
        case Success(favorites) =>
          var m := l.(favorites := favorites);
          var r := MergeFavorites(m, parsed[1..]);
          assert m.favorites[..|l.favorites|] == l.favorites;
          KeepsPrefix(l.favorites, m.favorites, r.after.favorites);
          r
  }

  /** No account beyond the first `n` repeats the id of an earlier one. */
  predicate NoNewDuplicate(accounts: seq<Account>, n: nat) {
    forall i, j :: 0 <= i < j < |accounts| && n <= j ==> accounts[i].id != accounts[j].id
  }

  lemma MergeNoDuplicate(l: State, a: Account, n: nat)
    requires n <= |l.accounts| && NoNewDuplicate(l.accounts, n)
    ensures NoNewDuplicate(MergeAccount(l, a).accounts, n)
  {
    var accounts := MergeAccount(l, a).accounts;
    forall i, j | 0 <= i < j < |accounts| && n <= j
      ensures accounts[i].id != accounts[j].id
    {
      if j == |l.accounts| {
        assert accounts[i] == l.accounts[i];
      }
    }
  }

  /** Import never adds an account whose id is already on file, or one
      already merged from the same file. */
  lemma {:induction false} MergeAccountsNoDuplicate(l: State, parsed: seq<Result<Account>>, n: nat)
    requires n <= |l.accounts| && NoNewDuplicate(l.accounts, n)
    ensures NoNewDuplicate(MergeAccounts(l, parsed).after.accounts, n)
    decreases |parsed|
  {
    if parsed != [] && parsed[0].Success? {
      MergeNoDuplicate(l, parsed[0].value, n);
      MergeAccountsNoDuplicate(MergeAccount(l, parsed[0].value), parsed[1..], n);
    }
  }

  /** The complete lines of a file; a missing file reads as no lines. */
  function FileLines(fs: map<string, string>, path: string): seq<string> {
    if path in fs then Lines(fs[path]) else []
  }

  /** Import: accounts, then payments, then favorites. The first error
      stops it, with everything merged until then kept. */
  function Import(l: State, dir: string, fs: map<string, string>): (r: Outcome<()>)
    ensures |l.accounts| <= |r.after.accounts| && r.after.accounts[..|l.accounts|] == l.accounts
    ensures |l.payments| <= |r.after.payments| && r.after.payments[..|l.payments|] == l.payments
    ensures |l.favorites| <= |r.after.favorites| && r.after.favorites[..|l.favorites|] == l.favorites
    ensures r.after.nextAccountID == CounterAfter(l.nextAccountID, r.after.accounts, |l.accounts|)
  {
    var a := MergeAccounts(l, Mapped(FileLines(fs, AccountsPath(dir)), ParseAccount));
    if a.result.Failure? then a
    else
      var p := MergePayments(a.after, Mapped(FileLines(fs, PaymentsPath(dir)), ParsePaymentHead));
      if p.result.Failure? then p
      else MergeFavorites(p.after, Mapped(FileLines(fs, FavoritesPath(dir)), ParseFavoriteHead))
  }

  // What an import appends, stated without the merge loop: the values of
  // the lines before the first one that did not parse; of those, the first
  // record of each id not on file; of those, the ones before the first that
  // lacks a field.

  /** The values of the lines before the first one that did not parse. */
  function Parsed<T>(rs: seq<Result<T>>): (r: seq<T>)
    ensures |r| <= |rs|
    ensures forall i :: 0 <= i < |r| ==> rs[i] == Success(r[i])
    ensures |r| < |rs| ==> rs[|r|].Failure?
  {
    if rs == [] || rs[0].Failure? then [] else [rs[0].value] + Parsed(rs[1..])
  }

  /** The error of the first line that did not parse, if there is one. */
  function ParseError<T>(rs: seq<Result<T>>): Option<Error> {
    var n := |Parsed(rs)|;
    if n < |rs| then Some(rs[n].error) else None
  }

  function Ids<T, K>(xs: seq<T>, key: T -> K): set<K> {
    set j | 0 <= j < |xs| :: key(xs[j])
  }

  /** The records of `xs` whose id is neither in `known` nor that of an
      earlier record of `xs`, in order. They carry new, distinct ids, each
      comes from `xs`, and together with `known` they carry every id of
      `xs`. */
  function FirstNew<T, K>(known: set<K>, xs: seq<T>, key: T -> K): (r: seq<T>)
    ensures forall j :: 0 <= j < |r| ==> key(r[j]) !in known
    ensures forall i, j :: 0 <= i < j < |r| ==> key(r[i]) != key(r[j])
    ensures multiset(r) <= multiset(xs)
    ensures known + Ids(r, key) == known + Ids(xs, key)
    decreases |xs|
  {
    if xs == [] then []
    else
      IdsCons(xs, key);
      assert xs == [xs[0]] + xs[1..];
      if key(xs[0]) in known then FirstNew(known, xs[1..], key)
      else
        var rest := FirstNew(known + {key(xs[0])}, xs[1..], key);
        IdsCons([xs[0]] + rest, key);
        assert ([xs[0]] + rest)[1..] == rest;
        [xs[0]] + rest
  }

  lemma IdsCons<T, K>(xs: seq<T>, key: T -> K)
    requires xs != []
    ensures Ids(xs, key) == {key(xs[0])} + Ids(xs[1..], key)
  {
    forall k | k in Ids(xs, key)
      ensures k in {key(xs[0])} + Ids(xs[1..], key)
    {
      var j :| 0 <= j < |xs| && key(xs[j]) == k;
      if j > 0 {
        assert xs[1..][j - 1] == xs[j];
      }
    }
    forall k | k in Ids(xs[1..], key)
      ensures k in Ids(xs, key)
    {
      var j :| 0 <= j < |xs[1..]| && key(xs[1..][j]) == k;
      assert xs[j + 1] == xs[1..][j];
    }
  }

  lemma IdsSnoc<T, K>(xs: seq<T>, x: T, key: T -> K)
    ensures Ids(xs + [x], key) == Ids(xs, key) + {key(x)}
  {
    var ys := xs + [x];
    assert ys[|xs|] == x;
    forall k | k in Ids(ys, key)
      ensures k in Ids(xs, key) + {key(x)}
    {
      var j :| 0 <= j < |ys| && key(ys[j]) == k;
      if j < |xs| {
        assert ys[j] == xs[j];
      }
    }
    forall k | k in Ids(xs, key)
      ensures k in Ids(ys, key)
    {
      var j :| 0 <= j < |xs| && key(xs[j]) == k;
      assert ys[j] == xs[j];
    }
  }

  /** The index of the first element that is `bad`, or the length. */
  function FirstWhere<T>(xs: seq<T>, bad: T -> bool): (m: nat)
    ensures m <= |xs|
    ensures forall i :: 0 <= i < m ==> !bad(xs[i])
    ensures m < |xs| ==> bad(xs[m])
  {
    if xs == [] || bad(xs[0]) then 0 else 1 + FirstWhere(xs[1..], bad)
  }

  /** What merging one dump file does: the records it appends, in order,
      and the error that stops it, if there is one. */
  datatype Read<T> = Read(added: seq<T>, error: Option<Error>)

  function Reported(error: Option<Error>): Result<()> {
    if error.Some? then Failure(error.value) else Success(())
  }

  function AccountKey(a: Account): int {
    a.id
  }

  function PaymentKey(p: Payment): string {
    p.id
  }

  function FavoriteKey(v: Favorite): string {
    v.id
  }

  function PaymentHeadKey(h: PaymentHead): string {
    h.id
  }

  function FavoriteHeadKey(h: FavoriteHead): string {
    h.id
  }

  /** The accounts file: the first account of each new id among the lines
      before the first bad one, and that line's error. */
  function ReadAccounts(accounts: seq<Account>, parsed: seq<Result<Account>>): Read<Account> {
    Read(FirstNew(Ids(accounts, AccountKey), Parsed(parsed), AccountKey), ParseError(parsed))
  }

  /** The payments file: the first head of each new id among the lines
      before the first bad one; the first of those heads without its
      category or status stops the merge with IndexOutOfRange, and
      otherwise the bad line's error does. */
  function ReadPayments(payments: seq<Payment>, parsed: seq<Result<PaymentHead>>): Read<Payment> {
    var heads := FirstNew(Ids(payments, PaymentKey), Parsed(parsed), PaymentHeadKey);
    var m := FirstWhere(heads, MissesPaymentFields);
    Read(Mapped(heads[..m], HeadPayment), if m < |heads| then Some(IndexOutOfRange) else ParseError(parsed))
  }

  function ReadFavorites(favorites: seq<Favorite>, parsed: seq<Result<FavoriteHead>>): Read<Favorite> {
    var heads := FirstNew(Ids(favorites, FavoriteKey), Parsed(parsed), FavoriteHeadKey);
    var m := FirstWhere(heads, MissesFavoriteField);
    Read(Mapped(heads[..m], HeadFavorite), if m < |heads| then Some(IndexOutOfRange) else ParseError(parsed))
  }

  /** A line that parsed is followed by the lines after it. */
  lemma ParsedCons<T>(rs: seq<Result<T>>)
    requires rs != [] && rs[0].Success?
    ensures Parsed(rs) == [rs[0].value] + Parsed(rs[1..])
    ensures ParseError(rs) == ParseError(rs[1..])
  {
  }

  lemma FirstNewCons<T, K>(known: set<K>, x: T, xs: seq<T>, key: T -> K)
    ensures FirstNew(known, [x] + xs, key)
      == if key(x) in known then FirstNew(known, xs, key) else [x] + FirstNew(known + {key(x)}, xs, key)
  {
    assert ([x] + xs)[0] == x && ([x] + xs)[1..] == xs;
  }

  lemma FirstWhereCons<T>(x: T, xs: seq<T>, bad: T -> bool)
    ensures FirstWhere([x] + xs, bad) == if bad(x) then 0 else 1 + FirstWhere(xs, bad)
  {
    assert ([x] + xs)[0] == x && ([x] + xs)[1..] == xs;
  }

  lemma MappedCons<A, B>(x: A, xs: seq<A>, f: A -> B)
    ensures Mapped([x] + xs, f) == [f(x)] + Mapped(xs, f)
  {
  }

  /** A first element that is not bad joins the prefix before the first
      bad one. */
  lemma GoodFirst<T, U>(x: T, xs: seq<T>, bad: T -> bool, f: T -> U)
    requires !bad(x)
    ensures var m, n := FirstWhere([x] + xs, bad), FirstWhere(xs, bad);
      && m == n + 1 && (m < |[x] + xs| <==> n < |xs|)
      && Mapped(([x] + xs)[..m], f) == [f(x)] + Mapped(xs[..n], f)
  {
    FirstWhereCons(x, xs, bad);
    var n := FirstWhere(xs, bad);
    assert ([x] + xs)[..n + 1] == [x] + xs[..n];
    MappedCons(x, xs[..n], f);
  }

  lemma AppendAssoc<T>(a: seq<T>, x: T, b: seq<T>)
    ensures a + [x] + b == a + ([x] + b)
  {
  }

  /** An id is on file exactly when it is among the ids of the collection. */
  lemma AccountOnFile(accounts: seq<Account>, id: int)
    ensures AccountIndex(accounts, id).Some? <==> id in Ids(accounts, AccountKey)
  {
    if AccountIndex(accounts, id).Some? {
      assert AccountKey(accounts[AccountIndex(accounts, id).value]) == id;
    }
  }

  lemma PaymentOnFile(payments: seq<Payment>, id: string)
    ensures PaymentIndex(payments, id).Some? <==> id in Ids(payments, PaymentKey)
  {
    if PaymentIndex(payments, id).Some? {
      assert PaymentKey(payments[PaymentIndex(payments, id).value]) == id;
    }
  }

  lemma FavoriteOnFile(favorites: seq<Favorite>, id: string)
    ensures FavoriteIndex(favorites, id).Some? <==> id in Ids(favorites, FavoriteKey)
  {
    if FavoriteIndex(favorites, id).Some? {
      assert FavoriteKey(favorites[FavoriteIndex(favorites, id).value]) == id;
    }
  }

  /** Merging an accounts file, for every input: the accounts on file stay
      in front, followed by the first account of each new id among the
      lines before the first bad line; that line's error is the result;
      the counter ends at the id of the last account appended. */
  lemma {:induction false} MergeAccountsExact(l: State, parsed: seq<Result<Account>>)
    ensures var rd := ReadAccounts(l.accounts, parsed);
      MergeAccounts(l, parsed) == Outcome(
        l.(accounts := l.accounts + rd.added, nextAccountID := CounterAfter(l.nextAccountID, rd.added, 0)),
        Reported(rd.error))
    decreases |parsed|
  {
    if parsed == [] || parsed[0].Failure? {
      assert l.accounts + [] == l.accounts;
    } else {
      var a := parsed[0].value;
      var known := Ids(l.accounts, AccountKey);
      var m := MergeAccount(l, a);
      MergeAccountsExact(m, parsed[1..]);
      ParsedCons(parsed);
      FirstNewCons(known, a, Parsed(parsed[1..]), AccountKey);
      AccountOnFile(l.accounts, a.id);
      if a.id !in known {
        IdsSnoc(l.accounts, a, AccountKey);
        AppendAssoc(l.accounts, a, FirstNew(known + {a.id}, Parsed(parsed[1..]), AccountKey));
      }
    }
  }

  /** How the payments file read so far grows by its first line, when
      that line parsed: a known id adds nothing, a new head without its
      fields stops the merge, a complete new head adds its payment. */
  lemma ReadPaymentsKnown(payments: seq<Payment>, parsed: seq<Result<PaymentHead>>)
    requires parsed != [] && parsed[0].Success? && parsed[0].value.id in Ids(payments, PaymentKey)
    ensures ReadPayments(payments, parsed) == ReadPayments(payments, parsed[1..])
  {
    ParsedCons(parsed);
    FirstNewCons(Ids(payments, PaymentKey), parsed[0].value, Parsed(parsed[1..]), PaymentHeadKey);
  }

  lemma ReadPaymentsIncomplete(payments: seq<Payment>, parsed: seq<Result<PaymentHead>>)
    requires parsed != [] && parsed[0].Success? && parsed[0].value.id !in Ids(payments, PaymentKey)
    requires MissesPaymentFields(parsed[0].value)
    ensures ReadPayments(payments, parsed) == Read([], Some(IndexOutOfRange))
  {
    var h := parsed[0].value;
    var known := Ids(payments, PaymentKey);
    ParsedCons(parsed);
    FirstNewCons(known, h, Parsed(parsed[1..]), PaymentHeadKey);
    FirstWhereCons(h, FirstNew(known + {h.id}, Parsed(parsed[1..]), PaymentHeadKey), MissesPaymentFields);
  }

  lemma ReadPaymentsNew(payments: seq<Payment>, parsed: seq<Result<PaymentHead>>)
    requires parsed != [] && parsed[0].Success? && parsed[0].value.id !in Ids(payments, PaymentKey)
    requires !MissesPaymentFields(parsed[0].value)
    ensures var rd := ReadPayments(payments + [HeadPayment(parsed[0].value)], parsed[1..]);
      ReadPayments(payments, parsed) == Read([HeadPayment(parsed[0].value)] + rd.added, rd.error)
  {
    var h := parsed[0].value;
    var known := Ids(payments, PaymentKey);
    ParsedCons(parsed);
    FirstNewCons(known, h, Parsed(parsed[1..]), PaymentHeadKey);
    IdsSnoc(payments, HeadPayment(h), PaymentKey);
    assert Ids(payments + [HeadPayment(h)], PaymentKey) == known + {h.id};
    GoodFirst(h, FirstNew(known + {h.id}, Parsed(parsed[1..]), PaymentHeadKey), MissesPaymentFields, HeadPayment);
  }

  /** Merging a payments file, for every input: the payments on file stay
      in front, followed by those of the first head of each new id among
      the lines before the first bad line, up to the first such head that
      lacks a field; the result is IndexOutOfRange for that head, or else
      the bad line's error. */
  lemma {:induction false} MergePaymentsExact(l: State, parsed: seq<Result<PaymentHead>>)
    ensures var rd := ReadPayments(l.payments, parsed);
      MergePayments(l, parsed) == Outcome(l.(payments := l.payments + rd.added), Reported(rd.error))
    decreases |parsed|
  {
    if parsed == [] || parsed[0].Failure? {
      assert l.payments + [] == l.payments;
    } else {
      var h := parsed[0].value;
      PaymentOnFile(l.payments, h.id);
      if h.id in Ids(l.payments, PaymentKey) {
        ReadPaymentsKnown(l.payments, parsed);
        assert l.(payments := l.payments) == l;
        MergePaymentsExact(l, parsed[1..]);
      } else if MissesPaymentFields(h) {
        ReadPaymentsIncomplete(l.payments, parsed);
        assert l.payments + [] == l.payments;
      } else {
        ReadPaymentsNew(l.payments, parsed);
        var m := l.(payments := l.payments + [HeadPayment(h)]);
        MergePaymentsExact(m, parsed[1..]);
        AppendAssoc(l.payments, HeadPayment(h), ReadPayments(m.payments, parsed[1..]).added);
      }
    }
  }

  lemma ReadFavoritesKnown(favorites: seq<Favorite>, parsed: seq<Result<FavoriteHead>>)
    requires parsed != [] && parsed[0].Success? && parsed[0].value.id in Ids(favorites, FavoriteKey)
    ensures ReadFavorites(favorites, parsed) == ReadFavorites(favorites, parsed[1..])
  {
    ParsedCons(parsed);
    FirstNewCons(Ids(favorites, FavoriteKey), parsed[0].value, Parsed(parsed[1..]), FavoriteHeadKey);
  }

  lemma ReadFavoritesIncomplete(favorites: seq<Favorite>, parsed: seq<Result<FavoriteHead>>)
    requires parsed != [] && parsed[0].Success? && parsed[0].value.id !in Ids(favorites, FavoriteKey)
    requires MissesFavoriteField(parsed[0].value)
    ensures ReadFavorites(favorites, parsed) == Read([], Some(IndexOutOfRange))
  {
    var h := parsed[0].value;
    var known := Ids(favorites, FavoriteKey);
    ParsedCons(parsed);
    FirstNewCons(known, h, Parsed(parsed[1..]), FavoriteHeadKey);
    FirstWhereCons(h, FirstNew(known + {h.id}, Parsed(parsed[1..]), FavoriteHeadKey), MissesFavoriteField);
  }

  lemma ReadFavoritesNew(favorites: seq<Favorite>, parsed: seq<Result<FavoriteHead>>)
    requires parsed != [] && parsed[0].Success? && parsed[0].value.id !in Ids(favorites, FavoriteKey)
    requires !MissesFavoriteField(parsed[0].value)
    ensures var rd := ReadFavorites(favorites + [HeadFavorite(parsed[0].value)], parsed[1..]);
      ReadFavorites(favorites, parsed) == Read([HeadFavorite(parsed[0].value)] + rd.added, rd.error)
  {
    var h := parsed[0].value;
    var known := Ids(favorites, FavoriteKey);
    ParsedCons(parsed);
    FirstNewCons(known, h, Parsed(parsed[1..]), FavoriteHeadKey);
    IdsSnoc(favorites, HeadFavorite(h), FavoriteKey);
    assert Ids(favorites + [HeadFavorite(h)], FavoriteKey) == known + {h.id};
    GoodFirst(h, FirstNew(known + {h.id}, Parsed(parsed[1..]), FavoriteHeadKey), MissesFavoriteField, HeadFavorite);
  }

  /** Merging a favorites file, for every input, as for payments: a new
      favorite needs its category field. */
  lemma {:induction false} MergeFavoritesExact(l: State, parsed: seq<Result<FavoriteHead>>)
    ensures var rd := ReadFavorites(l.favorites, parsed);
      MergeFavorites(l, parsed) == Outcome(l.(favorites := l.favorites + rd.added), Reported(rd.error))
    decreases |parsed|
  {
    if parsed == [] || parsed[0].Failure? {
      assert l.favorites + [] == l.favorites;
    } else {
      var h := parsed[0].value;
      FavoriteOnFile(l.favorites, h.id);
      if h.id in Ids(l.favorites, FavoriteKey) {
        ReadFavoritesKnown(l.favorites, parsed);
        assert l.(favorites := l.favorites) == l;
        MergeFavoritesExact(l, parsed[1..]);
      } else if MissesFavoriteField(h) {
        ReadFavoritesIncomplete(l.favorites, parsed);
        assert l.favorites + [] == l.favorites;
      } else {
        ReadFavoritesNew(l.favorites, parsed);
        var m := l.(favorites := l.favorites + [HeadFavorite(h)]);
        MergeFavoritesExact(m, parsed[1..]);
        AppendAssoc(l.favorites, HeadFavorite(h), ReadFavorites(m.favorites, parsed[1..]).added);
      }
    }
  }

  /** Import, for every input: the three files are merged in turn as the
      lemmas above state; the first file whose merge stops gives the error,
      the files after it are not read, and Import succeeds exactly when no
      file stops. */
  lemma ImportExact(l: State, dir: string, fs: map<string, string>)
    ensures var ra := ReadAccounts(l.accounts, Mapped(FileLines(fs, AccountsPath(dir)), ParseAccount));
      var rp := ReadPayments(l.payments, Mapped(FileLines(fs, PaymentsPath(dir)), ParsePaymentHead));
      var rv := ReadFavorites(l.favorites, Mapped(FileLines(fs, FavoritesPath(dir)), ParseFavoriteHead));
      var a := l.(accounts := l.accounts + ra.added, nextAccountID := CounterAfter(l.nextAccountID, ra.added, 0));
      var p := a.(payments := l.payments + rp.added);
      && Import(l, dir, fs) == (
        if ra.error.Some? then Outcome(a, Failure(ra.error.value))
        else if rp.error.Some? then Outcome(p, Failure(rp.error.value))
        else Outcome(p.(favorites := l.favorites + rv.added), Reported(rv.error)))
      && (Import(l, dir, fs).result.Success? <==> ra.error.None? && rp.error.None? && rv.error.None?)
  {
    var accounts := Mapped(FileLines(fs, AccountsPath(dir)), ParseAccount);
    var payments := Mapped(FileLines(fs, PaymentsPath(dir)), ParsePaymentHead);
    var favorites := Mapped(FileLines(fs, FavoritesPath(dir)), ParseFavoriteHead);
    MergeAccountsExact(l, accounts);
    var a := MergeAccounts(l, accounts).after;
    MergePaymentsExact(a, payments);
    MergeFavoritesExact(MergePayments(a, payments).after, favorites);
  }

  // What the merge reads a given record from.

  predicate PaymentFrom(h: PaymentHead, p: Payment) {
    && h.id == p.id && h.accountId == p.accountId && h.amount == p.amount
    && |h.rest| >= 2 && h.rest[0] == p.category && StatusOf(h.rest[1]) == p.status
  }

  predicate FavoriteFrom(h: FavoriteHead, v: Favorite) {
    && h.id == v.id && h.accountId == v.accountId && h.name == v.name && h.amount == v.amount
    && |h.rest| >= 1 && h.rest[0] == v.category
  }

  /** A text field the line format can carry: no separator, no newline. */
  predicate Plain(s: string) {
    ';' !in s && '\n' !in s
  }

  predicate ExportableAccount(a: Account) {
    IsInt64(a.id) && Plain(a.phone) && IsInt64(a.balance)
  }

  predicate ExportablePayment(p: Payment) {
    Plain(p.id) && IsInt64(p.accountId) && IsInt64(p.amount) && Plain(p.category)
    && Plain(StatusText(p.status)) && Canonical(p.status)
  }

  predicate ExportableFavorite(v: Favorite) {
    Plain(v.id) && IsInt64(v.accountId) && Plain(v.name) && IsInt64(v.amount) && Plain(v.category)
  }

  /** Every record can be written and read back: numbers in the 64-bit
      range, text fields without ';' or '\n', statuses that read back as
      themselves. */
  predicate Exportable(l: State) {
    && (forall j :: 0 <= j < |l.accounts| ==> ExportableAccount(l.accounts[j]))
    && (forall j :: 0 <= j < |l.payments| ==> ExportablePayment(l.payments[j]))
    && (forall j :: 0 <= j < |l.favorites| ==> ExportableFavorite(l.favorites[j]))
  }

  /** No two records of a collection share an id. */
  predicate UniqueIds(l: State) {
    && (forall i, j :: 0 <= i < j < |l.accounts| ==> l.accounts[i].id != l.accounts[j].id)
    && (forall i, j :: 0 <= i < j < |l.payments| ==> l.payments[i].id != l.payments[j].id)
    && (forall i, j :: 0 <= i < j < |l.favorites| ==> l.favorites[i].id != l.favorites[j].id)
  }

  lemma NoSeparatorInNumber(x: int)
    ensures Plain(Itoa(x))
  {
    var s := Itoa(x);
    assert forall j :: 0 <= j < |s| ==> s[j] != ';' && s[j] != '\n';
  }

  /** The layout of an accounts.dump line: id;phone;balance. */
  lemma Join3(a: string, b: string, c: string)
    ensures Join([a, b, c], ';') == a + ";" + b + ";" + c
  {
    assert [a, b, c][1..] == [b, c];
    assert [b, c][1..] == [c];
    assert Join([b, c], ';') == b + ";" + c;
    assert Join([a, b, c], ';') == a + ";" + (b + ";" + c);
    assert a + ";" + (b + ";" + c) == a + ";" + b + ";" + c;
  }

  /** The layout of a payments.dump line (id;accountId;amount;category;status)
      and of a favorites.dump line (id;accountId;name;amount;category). */
  lemma Join5(a: string, b: string, c: string, d: string, e: string)
    ensures Join([a, b, c, d, e], ';') == a + ";" + b + ";" + c + ";" + d + ";" + e
  {
    assert [a, b, c, d, e][1..] == [b, c, d, e];
    assert [b, c, d, e][1..] == [c, d, e];
    Join3(c, d, e);
    assert Join([b, c, d, e], ';') == b + ";" + (c + ";" + d + ";" + e);
    assert Join([a, b, c, d, e], ';') == a + ";" + (b + ";" + (c + ";" + d + ";" + e));
  }

  /** An exported account line parses back to the account. */
  lemma ParseAccountLine(a: Account)
    requires ExportableAccount(a)
    ensures ParseAccount(AccountLine(a)) == Success(a)
    ensures '\n' !in AccountLine(a)
  {
    var fields := [Itoa(a.id), a.phone, Itoa(a.balance)];
    NoSeparatorInNumber(a.id);
    NoSeparatorInNumber(a.balance);
    Join3(fields[0], fields[1], fields[2]);
    SplitJoin(fields, ';');
    AtoiItoa(a.id);
    AtoiItoa(a.balance);
  }

  /** An exported payment line yields the payment's fields. */
  lemma PaymentLineHead(p: Payment)
    requires ExportablePayment(p)
    ensures ParsePaymentHead(PaymentLine(p)).Success?
    ensures PaymentFrom(ParsePaymentHead(PaymentLine(p)).value, p)
    ensures '\n' !in PaymentLine(p)
  {
    var fields := [p.id, Itoa(p.accountId), Itoa(p.amount), p.category, StatusText(p.status)];
    NoSeparatorInNumber(p.accountId);
    NoSeparatorInNumber(p.amount);
    Join5(fields[0], fields[1], fields[2], fields[3], fields[4]);
    SplitJoin(fields, ';');
    AtoiItoa(p.accountId);
    AtoiItoa(p.amount);
    assert fields[3..] == [p.category, StatusText(p.status)];
    StatusTextInjective(p.status, p.status);
  }

  lemma FavoriteLineHead(v: Favorite)
    requires ExportableFavorite(v)
    ensures ParseFavoriteHead(FavoriteLine(v)).Success?
    ensures FavoriteFrom(ParseFavoriteHead(FavoriteLine(v)).value, v)
    ensures '\n' !in FavoriteLine(v)
  {
    var fields := [v.id, Itoa(v.accountId), v.name, Itoa(v.amount), v.category];
    NoSeparatorInNumber(v.accountId);
    NoSeparatorInNumber(v.amount);
    Join5(fields[0], fields[1], fields[2], fields[3], fields[4]);
    SplitJoin(fields, ';');
    AtoiItoa(v.accountId);
    AtoiItoa(v.amount);
    assert fields[4..] == [v.category];
  }

  // Merging records read from lines.

  /** No record of `later` has the id of a record of `earlier`. */
  predicate FreshAccounts(earlier: seq<Account>, later: seq<Account>) {
    forall i, j :: 0 <= i < |earlier| && 0 <= j < |later| ==> earlier[i].id != later[j].id
  }

  predicate FreshPayments(earlier: seq<Payment>, later: seq<Payment>) {
    forall i, j :: 0 <= i < |earlier| && 0 <= j < |later| ==> earlier[i].id != later[j].id
  }

  predicate FreshFavorites(earlier: seq<Favorite>, later: seq<Favorite>) {
    forall i, j :: 0 <= i < |earlier| && 0 <= j < |later| ==> earlier[i].id != later[j].id
  }

  /** Moving the first of the later records to the earlier ones keeps the
      two sides apart. */
  lemma FreshAccountsAfterFirst(earlier: seq<Account>, later: seq<Account>)
    requires |later| > 0 && FreshAccounts(earlier, later)
    requires forall i, j :: 0 <= i < j < |later| ==> later[i].id != later[j].id
    ensures FreshAccounts(earlier + [later[0]], later[1..])
  {
    var e := earlier + [later[0]];
    forall i, j | 0 <= i < |e| && 0 <= j < |later[1..]|
      ensures e[i].id != later[1..][j].id
    {
      assert later[1..][j] == later[j + 1];
      if i < |earlier| {
        assert e[i] == earlier[i];
      }
    }
  }

  lemma FreshPaymentsAfterFirst(earlier: seq<Payment>, later: seq<Payment>)
    requires |later| > 0 && FreshPayments(earlier, later)
    requires forall i, j :: 0 <= i < j < |later| ==> later[i].id != later[j].id
    ensures FreshPayments(earlier + [later[0]], later[1..])
  {
    var e := earlier + [later[0]];
    forall i, j | 0 <= i < |e| && 0 <= j < |later[1..]|
      ensures e[i].id != later[1..][j].id
    {
      assert later[1..][j] == later[j + 1];
      if i < |earlier| {
        assert e[i] == earlier[i];
      }
    }
  }

  lemma FreshFavoritesAfterFirst(earlier: seq<Favorite>, later: seq<Favorite>)
    requires |later| > 0 && FreshFavorites(earlier, later)
    requires forall i, j :: 0 <= i < j < |later| ==> later[i].id != later[j].id
    ensures FreshFavorites(earlier + [later[0]], later[1..])
  {
    var e := earlier + [later[0]];
    forall i, j | 0 <= i < |e| && 0 <= j < |later[1..]|
      ensures e[i].id != later[1..][j].id
    {
      assert later[1..][j] == later[j + 1];
      if i < |earlier| {
        assert e[i] == earlier[i];
      }
    }
  }

  lemma AppendFirst<T>(earlier: seq<T>, later: seq<T>)
    requires |later| > 0
    ensures earlier + [later[0]] + later[1..] == earlier + later
  {
    assert later == [later[0]] + later[1..];
  }

  /** Accounts with new, distinct ids are appended exactly, and the counter
      ends at the last one's id. */
  lemma {:induction false} MergeNewAccounts(l: State, parsed: seq<Result<Account>>, accounts: seq<Account>)
    requires |parsed| == |accounts| && forall j :: 0 <= j < |parsed| ==> parsed[j] == Success(accounts[j])
    requires FreshAccounts(l.accounts, accounts)
    requires forall i, j :: 0 <= i < j < |accounts| ==> accounts[i].id != accounts[j].id
    ensures MergeAccounts(l, parsed)
      == Outcome(l.(accounts := l.accounts + accounts, nextAccountID := CounterAfter(l.nextAccountID, accounts, 0)),
                 Success(()))
    decreases |parsed|
  {
    if parsed == [] {
      assert l.accounts + accounts == l.accounts;
    } else {
      var a := accounts[0];
      assert AccountIndex(l.accounts, a.id).None?;
      var m := l.(accounts := l.accounts + [a], nextAccountID := a.id);
      FreshAccountsAfterFirst(l.accounts, accounts);
      MergeNewAccounts(m, parsed[1..], accounts[1..]);
      AppendFirst(l.accounts, accounts);
    }
  }

  /** Accounts whose ids are all on file change nothing. */
  lemma {:induction false} MergeKnownAccounts(l: State, parsed: seq<Result<Account>>, accounts: seq<Account>)
    requires |parsed| == |accounts| && forall j :: 0 <= j < |parsed| ==> parsed[j] == Success(accounts[j])
    requires forall j :: 0 <= j < |accounts| ==> AccountIndex(l.accounts, accounts[j].id).Some?
    ensures MergeAccounts(l, parsed) == Outcome(l, Success(()))
    decreases |parsed|
  {
    if parsed != [] {
      MergeKnownAccounts(l, parsed[1..], accounts[1..]);
    }
  }

  lemma {:induction false} MergeNewPayments(l: State, parsed: seq<Result<PaymentHead>>, payments: seq<Payment>)
    requires |parsed| == |payments|
    requires forall j :: 0 <= j < |parsed| ==> parsed[j].Success? && PaymentFrom(parsed[j].value, payments[j])
    requires FreshPayments(l.payments, payments)
    requires forall i, j :: 0 <= i < j < |payments| ==> payments[i].id != payments[j].id
    ensures MergePayments(l, parsed) == Outcome(l.(payments := l.payments + payments), Success(()))
    decreases |parsed|
  {
    if parsed == [] {
      assert l.payments + payments == l.payments;
    } else {
      var p := payments[0];
      assert PaymentIndex(l.payments, p.id).None?;
      assert MergePayment(l.payments, parsed[0].value) == Success(l.payments + [p]);
      var m := l.(payments := l.payments + [p]);
      FreshPaymentsAfterFirst(l.payments, payments);
      MergeNewPayments(m, parsed[1..], payments[1..]);
      AppendFirst(l.payments, payments);
    }
  }

  lemma {:induction false} MergeKnownPayments(l: State, parsed: seq<Result<PaymentHead>>, payments: seq<Payment>)
    requires |parsed| == |payments|
    requires forall j :: 0 <= j < |parsed| ==> parsed[j].Success? && PaymentFrom(parsed[j].value, payments[j])
    requires forall j :: 0 <= j < |payments| ==> PaymentIndex(l.payments, payments[j].id).Some?
    ensures MergePayments(l, parsed) == Outcome(l, Success(()))
    decreases |parsed|
  {
    if parsed != [] {
      assert MergePayment(l.payments, parsed[0].value) == Success(l.payments);
      assert l.(payments := l.payments) == l;
      MergeKnownPayments(l, parsed[1..], payments[1..]);
    }
  }

  lemma {:induction false} MergeNewFavorites(l: State, parsed: seq<Result<FavoriteHead>>, favorites: seq<Favorite>)
    requires |parsed| == |favorites|
    requires forall j :: 0 <= j < |parsed| ==> parsed[j].Success? && FavoriteFrom(parsed[j].value, favorites[j])
    requires FreshFavorites(l.favorites, favorites)
    requires forall i, j :: 0 <= i < j < |favorites| ==> favorites[i].id != favorites[j].id
    ensures MergeFavorites(l, parsed) == Outcome(l.(favorites := l.favorites + favorites), Success(()))
    decreases |parsed|
  {
    if parsed == [] {
      assert l.favorites + favorites == l.favorites;
    } else {
      var v := favorites[0];
      assert FavoriteIndex(l.favorites, v.id).None?;
      assert MergeFavorite(l.favorites, parsed[0].value) == Success(l.favorites + [v]);
      var m := l.(favorites := l.favorites + [v]);
      FreshFavoritesAfterFirst(l.favorites, favorites);
      MergeNewFavorites(m, parsed[1..], favorites[1..]);
      AppendFirst(l.favorites, favorites);
    }
  }

  lemma {:induction false} MergeKnownFavorites(l: State, parsed: seq<Result<FavoriteHead>>, favorites: seq<Favorite>)
    requires |parsed| == |favorites|
    requires forall j :: 0 <= j < |parsed| ==> parsed[j].Success? && FavoriteFrom(parsed[j].value, favorites[j])
    requires forall j :: 0 <= j < |favorites| ==> FavoriteIndex(l.favorites, favorites[j].id).Some?
    ensures MergeFavorites(l, parsed) == Outcome(l, Success(()))
    decreases |parsed|
  {
    if parsed != [] {
      assert MergeFavorite(l.favorites, parsed[0].value) == Success(l.favorites);
      assert l.(favorites := l.favorites) == l;
      MergeKnownFavorites(l, parsed[1..], favorites[1..]);
    }
  }

  // Reading back what Export wrote.

  lemma ExportedAccounts(accounts: seq<Account>)
    requires forall j :: 0 <= j < |accounts| ==> ExportableAccount(accounts[j])
    ensures Lines(AccountsText(accounts)) == Mapped(accounts, AccountLine)
    ensures forall j :: 0 <= j < |accounts| ==> Mapped(Mapped(accounts, AccountLine), ParseAccount)[j] == Success(accounts[j])
  {
    var lines := Mapped(accounts, AccountLine);
    forall j | 0 <= j < |accounts|
      ensures ParseAccount(lines[j]) == Success(accounts[j]) && '\n' !in lines[j]
    {
      ParseAccountLine(accounts[j]);
    }
    LinesOfUnlines(lines);
  }

  lemma ExportedPayments(payments: seq<Payment>)
    requires forall j :: 0 <= j < |payments| ==> ExportablePayment(payments[j])
    ensures Lines(PaymentsText(payments)) == Mapped(payments, PaymentLine)
    ensures forall j :: 0 <= j < |payments| ==>
      var h := Mapped(Mapped(payments, PaymentLine), ParsePaymentHead)[j];
      h.Success? && PaymentFrom(h.value, payments[j])
  {
    var lines := Mapped(payments, PaymentLine);
    forall j | 0 <= j < |payments|
      ensures ParsePaymentHead(lines[j]).Success? && PaymentFrom(ParsePaymentHead(lines[j]).value, payments[j])
      ensures '\n' !in lines[j]
    {
      PaymentLineHead(payments[j]);
    }
    LinesOfUnlines(lines);
  }

  lemma ExportedFavorites(favorites: seq<Favorite>)
    requires forall j :: 0 <= j < |favorites| ==> ExportableFavorite(favorites[j])
    ensures Lines(FavoritesText(favorites)) == Mapped(favorites, FavoriteLine)
    ensures forall j :: 0 <= j < |favorites| ==>
      var h := Mapped(Mapped(favorites, FavoriteLine), ParseFavoriteHead)[j];
      h.Success? && FavoriteFrom(h.value, favorites[j])
  {
    var lines := Mapped(favorites, FavoriteLine);
    forall j | 0 <= j < |favorites|
      ensures ParseFavoriteHead(lines[j]).Success? && FavoriteFrom(ParseFavoriteHead(lines[j]).value, favorites[j])
      ensures '\n' !in lines[j]
    {
      FavoriteLineHead(favorites[j]);
    }
    LinesOfUnlines(lines);
  }

  /** The lines Import reads back from an exported directory: those of the
      collection when it is not empty, and none when it is and the
      directory held no older dump of it. */
  lemma ExportedAccountsFile(l: State, dir: string, fs: map<string, string>)
    requires forall j :: 0 <= j < |l.accounts| ==> ExportableAccount(l.accounts[j])
    requires l.accounts == [] ==> AccountsPath(dir) !in fs
    ensures FileLines(Export(l, dir, fs), AccountsPath(dir)) == Mapped(l.accounts, AccountLine)
  {
    if l.accounts != [] {
      ExportedAccounts(l.accounts);
    } else {
      PathsDistinct(dir);
    }
  }

  lemma ExportedPaymentsFile(l: State, dir: string, fs: map<string, string>)
    requires forall j :: 0 <= j < |l.payments| ==> ExportablePayment(l.payments[j])
    requires l.payments == [] ==> PaymentsPath(dir) !in fs
    ensures FileLines(Export(l, dir, fs), PaymentsPath(dir)) == Mapped(l.payments, PaymentLine)
  {
    if l.payments != [] {
      ExportedPayments(l.payments);
    } else {
      PathsDistinct(dir);
    }
  }

  lemma ExportedFavoritesFile(l: State, dir: string, fs: map<string, string>)
    requires forall j :: 0 <= j < |l.favorites| ==> ExportableFavorite(l.favorites[j])
    requires l.favorites == [] ==> FavoritesPath(dir) !in fs
    ensures FileLines(Export(l, dir, fs), FavoritesPath(dir)) == Mapped(l.favorites, FavoriteLine)
  {
    if l.favorites != [] {
      ExportedFavorites(l.favorites);
    } else {
      PathsDistinct(dir);
    }
  }

  /** Import, when the accounts and payments files merge without error, is
      the three merges one after the other. */
  lemma ImportInSteps(l: State, dir: string, fs: map<string, string>, a: State, p: State)
    requires MergeAccounts(l, Mapped(FileLines(fs, AccountsPath(dir)), ParseAccount)) == Outcome(a, Success(()))
    requires MergePayments(a, Mapped(FileLines(fs, PaymentsPath(dir)), ParsePaymentHead)) == Outcome(p, Success(()))
    ensures Import(l, dir, fs) == MergeFavorites(p, Mapped(FileLines(fs, FavoritesPath(dir)), ParseFavoriteHead))
  {
  }

  /** Exporting a ledger and importing the dump into a fresh service gives
      the same accounts, payments and favorites, in the same order, when
      the records can be written and ids are unique; the counter is then
      the id of the last account (0 with no accounts). */
  lemma ExportImportRoundTrip(l: State, dir: string)
    requires Exportable(l) && UniqueIds(l)
    ensures Import(Empty, dir, Export(l, dir, map[]))
      == Outcome(l.(nextAccountID := CounterAfter(0, l.accounts, 0)), Success(()))
  {
    var fs := Export(l, dir, map[]);
    var s1 := Empty.(accounts := l.accounts, nextAccountID := CounterAfter(0, l.accounts, 0));
    var s2 := s1.(payments := l.payments);
    ReadBackAccounts(l, dir);
    ReadBackPayments(l, dir, s1);
    ReadBackFavorites(l, dir, s2);
    ImportInSteps(Empty, dir, fs, s1, s2);
  }

  /** The first stage of the round trip: the accounts file of a dump. */
  lemma ReadBackAccounts(l: State, dir: string)
    requires Exportable(l) && UniqueIds(l)
    ensures MergeAccounts(Empty, Mapped(FileLines(Export(l, dir, map[]), AccountsPath(dir)), ParseAccount))
      == Outcome(Empty.(accounts := l.accounts, nextAccountID := CounterAfter(0, l.accounts, 0)), Success(()))
  {
    ExportedAccountsFile(l, dir, map[]);
    ExportedAccounts(l.accounts);
    MergeNewAccounts(Empty, Mapped(Mapped(l.accounts, AccountLine), ParseAccount), l.accounts);
    assert Empty.accounts + l.accounts == l.accounts;
  }

  /** The second stage: the payments file, merged into a state without
      payments. */
  lemma ReadBackPayments(l: State, dir: string, s: State)
    requires Exportable(l) && UniqueIds(l) && s.payments == []
    ensures MergePayments(s, Mapped(FileLines(Export(l, dir, map[]), PaymentsPath(dir)), ParsePaymentHead))
      == Outcome(s.(payments := l.payments), Success(()))
  {
    ExportedPaymentsFile(l, dir, map[]);
    ExportedPayments(l.payments);
    MergeNewPayments(s, Mapped(Mapped(l.payments, PaymentLine), ParsePaymentHead), l.payments);
    assert s.payments + l.payments == l.payments;
  }

  /** The third stage: the favorites file, merged into a state without
      favorites. */
  lemma ReadBackFavorites(l: State, dir: string, s: State)
    requires Exportable(l) && UniqueIds(l) && s.favorites == []
    ensures MergeFavorites(s, Mapped(FileLines(Export(l, dir, map[]), FavoritesPath(dir)), ParseFavoriteHead))
      == Outcome(s.(favorites := l.favorites), Success(()))
  {
    ExportedFavoritesFile(l, dir, map[]);
    ExportedFavorites(l.favorites);
    MergeNewFavorites(s, Mapped(Mapped(l.favorites, FavoriteLine), ParseFavoriteHead), l.favorites);
    assert s.favorites + l.favorites == l.favorites;
  }

  /** A ledger's own account lines change nothing when merged into it. */
  lemma ReimportAccounts(l: State)
    requires forall j :: 0 <= j < |l.accounts| ==> ExportableAccount(l.accounts[j])
    ensures MergeAccounts(l, Mapped(Mapped(l.accounts, AccountLine), ParseAccount)) == Outcome(l, Success(()))
  {
    ExportedAccounts(l.accounts);
    forall j | 0 <= j < |l.accounts|
      ensures AccountIndex(l.accounts, l.accounts[j].id).Some?
    {
    }
    MergeKnownAccounts(l, Mapped(Mapped(l.accounts, AccountLine), ParseAccount), l.accounts);
  }

  lemma ReimportPayments(l: State)
    requires forall j :: 0 <= j < |l.payments| ==> ExportablePayment(l.payments[j])
    ensures MergePayments(l, Mapped(Mapped(l.payments, PaymentLine), ParsePaymentHead)) == Outcome(l, Success(()))
  {
    ExportedPayments(l.payments);
    forall j | 0 <= j < |l.payments|
      ensures PaymentIndex(l.payments, l.payments[j].id).Some?
    {
    }
    MergeKnownPayments(l, Mapped(Mapped(l.payments, PaymentLine), ParsePaymentHead), l.payments);
  }

  lemma ReimportFavorites(l: State)
    requires forall j :: 0 <= j < |l.favorites| ==> ExportableFavorite(l.favorites[j])
    ensures MergeFavorites(l, Mapped(Mapped(l.favorites, FavoriteLine), ParseFavoriteHead)) == Outcome(l, Success(()))
  {
    ExportedFavorites(l.favorites);
    forall j | 0 <= j < |l.favorites|
      ensures FavoriteIndex(l.favorites, l.favorites[j].id).Some?
    {
    }
    MergeKnownFavorites(l, Mapped(Mapped(l.favorites, FavoriteLine), ParseFavoriteHead), l.favorites);
  }

  /** Importing a ledger's own dump back into it changes nothing: every id
      read is already on file. The directory must not hold an older dump
      of a collection that is now empty, which Export would leave there. */
  lemma ReimportUnchanged(l: State, dir: string, fs: map<string, string>)
    requires Exportable(l)
    requires l.accounts == [] ==> AccountsPath(dir) !in fs
    requires l.payments == [] ==> PaymentsPath(dir) !in fs
    requires l.favorites == [] ==> FavoritesPath(dir) !in fs
    ensures Import(l, dir, Export(l, dir, fs)) == Outcome(l, Success(()))
  {
    var out := Export(l, dir, fs);
    ExportedAccountsFile(l, dir, fs);
    ExportedPaymentsFile(l, dir, fs);
    ExportedFavoritesFile(l, dir, fs);
    ReimportAccounts(l);
    ReimportPayments(l);
    ReimportFavorites(l);
    ImportInSteps(l, dir, out, l, l);
  }

  /** The counter follows the last account imported, not the largest id,
      so accounts registered after an import can repeat an imported id:
      importing ids 3 and 1, then registering two phones, gives id 3 twice. */
  lemma ImportedCounterRepeatsIds()
    ensures var m := MergeAccounts(Empty, [Success(Account(3, "a", 0)), Success(Account(1, "b", 0))]);
      && m.result.Success?
      && m.after.accounts == [Account(3, "a", 0), Account(1, "b", 0)]
      && m.after.nextAccountID == 1
      && var second := RegisterAccount(RegisterAccount(m.after, "c").after, "d");
      && second.result == Success(Account(3, "d", 0))
      && second.after.accounts[0].id == second.after.accounts[3].id
  {
    var parsed := [Success(Account(3, "a", 0)), Success(Account(1, "b", 0))];
    var one := MergeAccount(Empty, Account(3, "a", 0));
    assert one.accounts == [Account(3, "a", 0)];
    assert parsed[1..] == [Success(Account(1, "b", 0))];
    var two := MergeAccount(one, Account(1, "b", 0));
    assert AccountIndex(one.accounts, 1).None?;
    assert two.accounts == [Account(3, "a", 0), Account(1, "b", 0)];
    assert parsed[1..][1..] == [];
    assert MergeAccounts(Empty, parsed) == MergeAccounts(two, []);
    var first := RegisterAccount(two, "c");
    assert !PhoneTaken(two.accounts, "c");
    assert !PhoneTaken(first.after.accounts, "d");
  }
}
