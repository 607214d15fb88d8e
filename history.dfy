/** The payment history of an account and its export to files:
    ExportAccountHistory, HistoryToFiles and the record text of
    exportPayments. The file system is a map from path to content. */
module History {
  import opened Types
  import opened Decimal
  import opened Text
  import opened Ledger
  import opened Shards
  import opened Dump

  function OfAccount(accountID: int): Payment -> bool {
    (p: Payment) => p.accountId == accountID
  }

  /** ExportAccountHistory: an unknown account is refused first; a ledger
      without any payment (of any account) gives "payments not found";
      otherwise the account's payments, in insertion order, possibly none. */
  function AccountHistory(l: State, accountID: int): (r: Result<seq<Payment>>)
    ensures r == Failure(AccountNotFound) <==> AccountIndex(l.accounts, accountID).None?
    ensures r == Failure(PaymentsNotFound) <==> AccountIndex(l.accounts, accountID).Some? && l.payments == []
    ensures r.Success? ==> r.value == Matching(l.payments, OfAccount(accountID))
  {
    if AccountIndex(l.accounts, accountID).None? then Failure(AccountNotFound)
    else if l.payments == [] then Failure(PaymentsNotFound)
    else Success(Matching(l.payments, OfAccount(accountID)))
  }

  /** The history holds exactly the account's payments, each as often as
      the ledger holds it, and keeps their order across any split of the
      ledger. */
  lemma AccountHistoryExact(l: State, accountID: int, p: Payment, before: seq<Payment>, after: seq<Payment>)
    requires AccountHistory(l, accountID).Success?
    requires l.payments == before + after
    ensures var h := AccountHistory(l, accountID).value;
      && (forall j :: 0 <= j < |h| ==> h[j].accountId == accountID)
      && multiset(h)[p] == (if p.accountId == accountID then multiset(l.payments)[p] else 0)
      && h == Matching(before, OfAccount(accountID)) + Matching(after, OfAccount(accountID))
  {
    MatchingAccepted(l.payments, OfAccount(accountID));
    MatchingCount(l.payments, OfAccount(accountID), p);
    MatchingConcat(before, after, OfAccount(accountID));
  }

  // Record text of exportPayments.

  /** One payment of a history file: its five fields, each followed by ';',
      then '\n'. */
  function RecordText(p: Payment): string {
    p.id + ";" + Itoa(p.accountId) + ";" + Itoa(p.amount) + ";" + p.category + ";" + StatusText(p.status) + ";" + "\n"
  }

  /** The content exportPayments writes: the records one after another. */
  function HistoryText(ps: seq<Payment>): string {
    if ps == [] then "" else HistoryText(ps[..|ps| - 1]) + RecordText(ps[|ps| - 1])
  }

  /** A record is the payments.dump line of the payment with one more,
      empty, field. */
  function RecordLine(p: Payment): string {
    PaymentLine(p) + ";"
  }

  lemma {:induction false} HistoryTextLines(ps: seq<Payment>)
    ensures HistoryText(ps) == Unlines(Mapped(ps, RecordLine))
    decreases |ps|
  {
    if ps != [] {
      var init, last := ps[..|ps| - 1], ps[|ps| - 1];
      HistoryTextLines(init);
      UnlinesSnoc(Mapped(init, RecordLine), RecordLine(last));
      RecordTextLine(last);
      AppendLine(HistoryText(init), Unlines(Mapped(init, RecordLine)), RecordText(last), RecordLine(last));
    }
  }

  lemma RecordTextLine(p: Payment)
    ensures RecordText(p) == RecordLine(p) + "\n"
  {
  }

  /** A record read by the payments.dump parser gives the payment back. */
  lemma RecordLineHead(p: Payment)
    requires ExportablePayment(p)
    ensures ParsePaymentHead(RecordLine(p)).Success?
    ensures PaymentFrom(ParsePaymentHead(RecordLine(p)).value, p)
    ensures '\n' !in RecordLine(p)
  {
    var f := RecordFields(p);
    AtoiItoa(p.accountId);
    AtoiItoa(p.amount);
    assert f[3..] == [p.category, StatusText(p.status), ""];
    StatusTextInjective(p.status, p.status);
  }

  /** The fields of a history record: the five of a payments.dump line and
      the empty one after the trailing ';'. */
  lemma RecordFields(p: Payment) returns (f: seq<string>)
    requires ExportablePayment(p)
    ensures f == [p.id, Itoa(p.accountId), Itoa(p.amount), p.category, StatusText(p.status), ""]
    ensures Split(RecordLine(p), ';') == f
    ensures '\n' !in RecordLine(p)
  {
    var fields := [p.id, Itoa(p.accountId), Itoa(p.amount), p.category, StatusText(p.status)];
    f := fields + [""];
    NoSeparatorInNumber(p.accountId);
    NoSeparatorInNumber(p.amount);
    Join5(fields[0], fields[1], fields[2], fields[3], fields[4]);
    JoinSnoc(fields, "", ';');
    assert PaymentLine(p) + ";" == PaymentLine(p) + [';'] + "";
    SplitJoin(f, ';');
  }

  /** A history file read line by line gives its records, each of which
      parses back to its payment. */
  lemma HistoryLines(ps: seq<Payment>)
    requires forall j :: 0 <= j < |ps| ==> ExportablePayment(ps[j])
    ensures Lines(HistoryText(ps)) == Mapped(ps, RecordLine)
    ensures forall j :: 0 <= j < |ps| ==>
      var h := Mapped(Mapped(ps, RecordLine), ParsePaymentHead)[j];
      h.Success? && PaymentFrom(h.value, ps[j])
  {
    var lines := Mapped(ps, RecordLine);
    forall j | 0 <= j < |ps|
      ensures ParsePaymentHead(lines[j]).Success? && PaymentFrom(ParsePaymentHead(lines[j]).value, ps[j])
      ensures '\n' !in lines[j]
    {
      RecordLineHead(ps[j]);
    }
    HistoryTextLines(ps);
    LinesOfUnlines(lines);
  }

  /** A history file imported as a payments dump appends its payments, in
      order, when their ids are new and distinct. */
  lemma HistoryReadBack(l: State, ps: seq<Payment>)
    requires forall j :: 0 <= j < |ps| ==> ExportablePayment(ps[j])
    requires FreshPayments(l.payments, ps)
    requires forall i, j :: 0 <= i < j < |ps| ==> ps[i].id != ps[j].id
    ensures MergePayments(l, Mapped(Lines(HistoryText(ps)), ParsePaymentHead)) == Outcome(l.(payments := l.payments + ps), Success(()))
  {
    HistoryLines(ps);
    MergeNewPayments(l, Mapped(Mapped(ps, RecordLine), ParsePaymentHead), ps);
  }

  // The file schedule of HistoryToFiles.

  /** Consecutive chunks of `size` payments, the last one holding the rest;
      a single chunk when size is not positive. */
  function Chunks(ps: seq<Payment>, size: int): (r: seq<seq<Payment>>)
    requires ps != []
    ensures |r| >= 1 && ConcatAll(r) == ps
    ensures forall j :: 0 <= j < |r| ==> r[j] != []
    ensures size > 0 ==> forall j :: 0 <= j < |r| ==> |r[j]| <= size
    ensures size > 0 ==> forall j :: 0 <= j < |r| - 1 ==> |r[j]| == size
    ensures size <= 0 ==> r == [ps]
    decreases |ps|
  {
    if size <= 0 || |ps| <= size then
      assert ConcatAll([ps]) == ps + ConcatAll([]);
      [ps]
    else
      var rest := Chunks(ps[size..], size);
      var r := [ps[..size]] + rest;
      assert r[1..] == rest;
      assert ps[..size] + ps[size..] == ps;
      r
  }

  /** A full first chunk and the chunks of the rest. */
  lemma ChunksStep(ps: seq<Payment>, size: int)
    requires 0 < size < |ps|
    ensures Chunks(ps, size) == [ps[..size]] + Chunks(ps[size..], size)
  {
  }

  datatype File = File(path: string, content: string)

  function NumberedPath(dir: string, n: int): string {
    dir + "/payments" + Itoa(n) + ".dump"
  }

  /** The files for chunks numbered from `first` on. */
  function NumberedFiles(chunks: seq<seq<Payment>>, dir: string, first: int): (r: seq<File>)
    ensures |r| == |chunks|
    ensures forall j :: 0 <= j < |chunks| ==> r[j] == File(NumberedPath(dir, first + j), HistoryText(chunks[j]))
  {
    if chunks == [] then []
    else [File(NumberedPath(dir, first), HistoryText(chunks[0]))] + NumberedFiles(chunks[1..], dir, first + 1)
  }

  /** The files HistoryToFiles writes, in order: none for no payments; one
      payments.dump when all fit in one file; otherwise payments1.dump,
      payments2.dump, ... with consecutive chunks of `records` payments
      (a single payments1.dump when records is not positive). */
  function HistoryFiles(ps: seq<Payment>, dir: string, records: int): seq<File> {
    if ps == [] then []
    else if |ps| <= records then [File(dir + "/payments.dump", HistoryText(ps))]
    else NumberedFiles(Chunks(ps, records), dir, 1)
  }

  /** Write the files one after another; a later file with the same path
      replaces an earlier one. */
  function WriteAll(fs: map<string, string>, files: seq<File>): map<string, string>
    decreases |files|
  {
    if files == [] then fs else WriteAll(fs[files[0].path := files[0].content], files[1..])
  }

  /** Writing the files of a first chunk and of the rest. */
  lemma WriteNumberedStep(fs: map<string, string>, chunk: seq<Payment>, rest: seq<seq<Payment>>, dir: string, first: int)
    ensures WriteAll(fs, NumberedFiles([chunk] + rest, dir, first))
         == WriteAll(fs[NumberedPath(dir, first) := HistoryText(chunk)], NumberedFiles(rest, dir, first + 1))
  {
    var files := NumberedFiles([chunk] + rest, dir, first);
    assert ([chunk] + rest)[1..] == rest;
    assert files[1..] == NumberedFiles(rest, dir, first + 1);
  }

  /** What the writing loop of HistoryToFiles still has to produce from
      the chunk starting at `count` on, numbered from `number`, on top of
      the files written so far. */
  ghost function Unwritten(out: map<string, string>, ps: seq<Payment>, count: nat, records: int, dir: string, number: int): map<string, string>
    requires count < |ps|
  {
    WriteAll(out, NumberedFiles(Chunks(ps[count..], records), dir, number))
  }

  /** One iteration of the HistoryToFiles loop at index i, with the
      chunk [count, i) pending: when the loop writes that chunk now (at the
      last index, or once it holds `records` payments), what is still to
      write is the later chunks, numbered from the next number. */
  lemma HistoryStep(out: map<string, string>, now: map<string, string>, ps: seq<Payment>, count: nat, i: nat, records: int, dir: string, number: int)
    requires count < i <= |ps|
    requires records > 0 ==> i - count <= records
    requires records <= 0 ==> count == 0
    requires now == out[NumberedPath(dir, number) := HistoryText(ps[count..i])]
    ensures i == |ps| ==> Unwritten(out, ps, count, records, dir, number) == now
    ensures i < |ps| && i - count == records ==>
      Unwritten(out, ps, count, records, dir, number) == Unwritten(now, ps, i, records, dir, number + 1)
  {
    if i < |ps| && i - count == records {
      FullChunkStep(out, ps, count, i, records, dir, number);
    } else if i == |ps| {
      LastChunkStep(out, ps, count, records, dir, number);
    }
  }

  lemma FullChunkStep(out: map<string, string>, ps: seq<Payment>, count: nat, i: nat, records: int, dir: string, number: int)
    requires count < i < |ps| && i - count == records
    ensures Unwritten(out, ps, count, records, dir, number)
      == Unwritten(out[NumberedPath(dir, number) := HistoryText(ps[count..i])], ps, i, records, dir, number + 1)
  {
    var t := ps[count..];
    SliceOfSlice(ps, count, i);
    ChunksStep(t, records);
    WriteNumberedStep(out, ps[count..i], Chunks(ps[i..], records), dir, number);
  }

  lemma LastChunkStep(out: map<string, string>, ps: seq<Payment>, count: nat, records: int, dir: string, number: int)
    requires count < |ps|
    requires records > 0 ==> |ps| - count <= records
    requires records <= 0 ==> count == 0
    ensures Unwritten(out, ps, count, records, dir, number) == out[NumberedPath(dir, number) := HistoryText(ps[count..|ps|])]
  {
    var t := ps[count..];
    SliceOfSlice(ps, count, |ps|);
    assert Chunks(t, records) == [t];
    WriteNumberedStep(out, t, [], dir, number);
  }

  /** The numbered files of a history longer than one file are the chunks
      from the first payment on. */
  lemma HistoryFilesNumbered(fs: map<string, string>, ps: seq<Payment>, dir: string, records: int)
    requires |ps| > 0 && |ps| > records
    ensures WriteAll(fs, HistoryFiles(ps, dir, records)) == Unwritten(fs, ps, 0, records, dir, 1)
  {
    assert ps[0..] == ps;
  }

  /** Slices of a suffix are slices of the whole. */
  lemma SliceOfSlice<T>(s: seq<T>, a: nat, b: nat)
    requires a <= b <= |s|
    ensures s[a..][..b - a] == s[a..b] && s[a..][b - a..] == s[b..] && s[a..] == s[a..|s|]
  {
  }

  lemma NumberedPathsDistinct(dir: string, m: nat, n: nat)
    requires m != n
    ensures NumberedPath(dir, m) != NumberedPath(dir, n)
  {
    var p := dir + "/payments";
    if NumberedPath(dir, m) == NumberedPath(dir, n) {
      var a, b := Itoa(m), Itoa(n);
      assert |p + a + ".dump"| == |p + b + ".dump"|;
      assert a == (p + a + ".dump")[|p|..|p| + |a|];
      assert b == (p + b + ".dump")[|p|..|p| + |b|];
      NatTextInjective(m, n);
    }
  }

  /** A numbered file never overwrites the single payments.dump. */
  lemma NumberedPathNotSingle(dir: string, n: nat)
    ensures NumberedPath(dir, n) != dir + "/payments.dump"
  {
    var i := |dir| + 9;
    assert NumberedPath(dir, n)[i] == Itoa(n)[0];
    assert (dir + "/payments.dump")[i] == '.';
  }

  /** The paths a list of files is written to are distinct. */
  predicate DistinctPaths(files: seq<File>) {
    forall i, j :: 0 <= i < j < |files| ==> files[i].path != files[j].path
  }

  lemma NumberedFilesDistinct(chunks: seq<seq<Payment>>, dir: string, first: nat)
    ensures DistinctPaths(NumberedFiles(chunks, dir, first))
  {
    var files := NumberedFiles(chunks, dir, first);
    forall i, j | 0 <= i < j < |files|
      ensures files[i].path != files[j].path
    {
      NumberedFilePathsDiffer(files, dir, first, i, j);
    }
  }

  lemma NumberedFilePathsDiffer(files: seq<File>, dir: string, first: nat, i: nat, j: nat)
    requires i < j < |files|
    requires files[i].path == NumberedPath(dir, first + i) && files[j].path == NumberedPath(dir, first + j)
    ensures files[i].path != files[j].path
  {
    NumberedPathsDistinct(dir, first + i, first + j);
  }

  lemma HistoryPathsDistinct(ps: seq<Payment>, dir: string, records: int)
    ensures DistinctPaths(HistoryFiles(ps, dir, records))
  {
    if ps != [] && |ps| > records {
      NumberedFilesDistinct(Chunks(ps, records), dir, 1);
    }
  }

  /** With distinct paths, every file holds what was written to it and every
      other file keeps its content. */
  lemma {:induction false} WriteAllContents(fs: map<string, string>, files: seq<File>, path: string)
    requires DistinctPaths(files)
    ensures forall j :: 0 <= j < |files| ==> files[j].path in WriteAll(fs, files) && WriteAll(fs, files)[files[j].path] == files[j].content
    ensures (forall j :: 0 <= j < |files| ==> files[j].path != path) ==>
      (path in WriteAll(fs, files) <==> path in fs) && (path in fs ==> WriteAll(fs, files)[path] == fs[path])
    decreases |files|
  {
    if files != [] {
      var next := fs[files[0].path := files[0].content];
      assert DistinctPaths(files[1..]);
      WriteAllContents(next, files[1..], path);
      WriteAllContents(next, files[1..], files[0].path);
      forall j | 1 <= j < |files|
        ensures files[j] == files[1..][j - 1]
      {
      }
    }
  }

  /** What HistoryToFiles leaves in the file system: with more payments than
      `records`, file n (counted from 1) holds the n-th chunk of Chunks. */
  lemma HistoryWritten(fs: map<string, string>, ps: seq<Payment>, dir: string, records: int)
    requires ps != [] && |ps| > records
    ensures var out := WriteAll(fs, HistoryFiles(ps, dir, records));
      var chunks := Chunks(ps, records);
      forall n :: 1 <= n <= |chunks| ==>
        NumberedPath(dir, n) in out && out[NumberedPath(dir, n)] == HistoryText(chunks[n - 1])
  {
    NumberedWritten(fs, Chunks(ps, records), dir, 1);
  }

  /** Numbered files written one after another: file n holds chunk
      n - first. */
  lemma NumberedWritten(fs: map<string, string>, chunks: seq<seq<Payment>>, dir: string, first: nat)
    ensures var out := WriteAll(fs, NumberedFiles(chunks, dir, first));
      forall n :: first <= n < first + |chunks| ==>
        NumberedPath(dir, n) in out && out[NumberedPath(dir, n)] == HistoryText(chunks[n - first])
  {
    var files := NumberedFiles(chunks, dir, first);
    NumberedFilesDistinct(chunks, dir, first);
    WriteAllContents(fs, files, "");
    var out := WriteAll(fs, files);
    forall n | first <= n < first + |chunks|
      ensures NumberedPath(dir, n) in out && out[NumberedPath(dir, n)] == HistoryText(chunks[n - first])
    {
      assert files[n - first] == File(NumberedPath(dir, n), HistoryText(chunks[n - first]));
    }
  }
}
