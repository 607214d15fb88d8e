/** The string handling the dump codec relies on: strings.Split on one
    separator character, the separator-joined record, and the reading of a
    file line by line with bufio.Reader.ReadString('\n'). */
module Text {

  /** strings.Split(s, string(sep)): the pieces between separators; n
      separators give n + 1 pieces, the empty string gives [""]. */
  function Split(s: string, sep: char): (r: seq<string>)
    ensures |r| >= 1
    ensures forall j :: 0 <= j < |r| ==> sep !in r[j]
  {
    if s == [] then [""]
    else
      var rest := Split(s[1..], sep);
      if s[0] == sep then [""] + rest
      else [[s[0]] + rest[0]] + rest[1..]
  }

  /** The fields written one after another with `sep` between them. */
  function Join(fields: seq<string>, sep: char): string
    requires |fields| >= 1
  {
    if |fields| == 1 then fields[0] else fields[0] + [sep] + Join(fields[1..], sep)
  }

  predicate Free(fields: seq<string>, c: char) {
    forall j :: 0 <= j < |fields| ==> c !in fields[j]
  }

  /** A first piece without the separator stays one piece. */
  lemma {:induction false} SplitPrefix(f: string, t: string, sep: char)
    requires sep !in f
    ensures Split(f + t, sep) == [f + Split(t, sep)[0]] + Split(t, sep)[1..]
  {
    if f == [] {
      var r := Split(t, sep);
      assert f + t == t && f + r[0] == r[0];
      assert r == [r[0]] + r[1..];
    } else {
      assert (f + t)[1..] == f[1..] + t;
      SplitPrefix(f[1..], t, sep);
      assert [f[0]] + (f[1..] + Split(t, sep)[0]) == f + Split(t, sep)[0];
    }
  }

  /** Splitting a joined record gives back its fields when no field holds
      the separator. */
  lemma {:induction false} SplitJoin(fields: seq<string>, sep: char)
    requires |fields| >= 1 && Free(fields, sep)
    ensures Split(Join(fields, sep), sep) == fields
  {
    if |fields| == 1 {
      SplitPrefix(fields[0], "", sep);
      assert fields[0] + "" == fields[0];
    } else {
      var rest := Join(fields[1..], sep);
      assert Join(fields, sep) == fields[0] + ([sep] + rest);
      SplitPrefix(fields[0], [sep] + rest, sep);
      assert ([sep] + rest)[1..] == rest;
      SplitJoin(fields[1..], sep);
      assert fields[0] + "" == fields[0];
      assert fields == [fields[0]] + fields[1..];
    }
  }

  /** The complete lines of a file read with ReadString('\n') until io.EOF,
      each with its '\n' trimmed. A last line without '\n' comes back with
      io.EOF and is dropped. */
  function Lines(text: string): (r: seq<string>)
    ensures forall j :: 0 <= j < |r| ==> '\n' !in r[j]
  {
    if text == [] then []
    else if text[0] == '\n' then [""] + Lines(text[1..])
    else
      var rest := Lines(text[1..]);
      if rest == [] then [] else [[text[0]] + rest[0]] + rest[1..]
  }

  /** Records written one per line, each followed by '\n'. */
  function Unlines(lines: seq<string>): string {
    if lines == [] then "" else lines[0] + "\n" + Unlines(lines[1..])
  }

  lemma {:induction false} LinesPrefix(l: string, t: string)
    requires '\n' !in l
    ensures Lines(l + "\n" + t) == [l] + Lines(t)
  {
    if l == [] {
      assert l + "\n" + t == "\n" + t;
      assert ("\n" + t)[1..] == t;
    } else {
      assert (l + "\n" + t)[1..] == l[1..] + "\n" + t;
      LinesPrefix(l[1..], t);
      assert [l[0]] + l[1..] == l;
    }
  }

  lemma {:induction false} LinesOfUnterminated(t: string)
    requires '\n' !in t
    ensures Lines(t) == []
  {
    if t != [] {
      LinesOfUnterminated(t[1..]);
    }
  }

  /** Reading back what was written line by line gives the lines, whatever
      unterminated text follows the last '\n'. */
  lemma {:induction false} LinesUnlines(lines: seq<string>, tail: string)
    requires Free(lines, '\n') && '\n' !in tail
    ensures Lines(Unlines(lines) + tail) == lines
  {
    if lines == [] {
      assert Unlines(lines) + tail == tail;
      LinesOfUnterminated(tail);
    } else {
      assert Unlines(lines) + tail == lines[0] + "\n" + (Unlines(lines[1..]) + tail);
      LinesPrefix(lines[0], Unlines(lines[1..]) + tail);
      LinesUnlines(lines[1..], tail);
      assert lines == [lines[0]] + lines[1..];
    }
  }

  /** A file of complete lines reads back as those lines. */
  lemma LinesOfUnlines(lines: seq<string>)
    requires Free(lines, '\n')
    ensures Lines(Unlines(lines)) == lines
  {
    LinesUnlines(lines, "");
    assert Unlines(lines) + "" == Unlines(lines);
  }

  /** `f` applied to every element, in order: the lines of a collection,
      one per record, or the parse of every line of a file. */
  function Mapped<A, B>(xs: seq<A>, f: A -> B): (r: seq<B>)
    ensures |r| == |xs|
    ensures forall j :: 0 <= j < |xs| ==> r[j] == f(xs[j])
  {
    if xs == [] then [] else Mapped(xs[..|xs| - 1], f) + [f(xs[|xs| - 1])]
  }

  lemma MappedSnoc<A, B>(xs: seq<A>, x: A, f: A -> B)
    ensures Mapped(xs + [x], f) == Mapped(xs, f) + [f(x)]
  {
    assert (xs + [x])[..|xs|] == xs;
  }

  /** Writing one more line appends it, with its '\n', at the end. */
  lemma {:induction false} UnlinesSnoc(lines: seq<string>, l: string)
    ensures Unlines(lines + [l]) == Unlines(lines) + l + "\n"
  {
    if lines == [] {
      assert lines + [l] == [l];
    } else {
      assert (lines + [l])[1..] == lines[1..] + [l];
      UnlinesSnoc(lines[1..], l);
    }
  }

  /** Equal texts followed by the same line and its '\n'. */
  lemma AppendLine(a: string, b: string, t: string, l: string)
    requires a == b && t == l + "\n"
    ensures a + t == b + l + "\n"
  {
  }

  /** One more field after the last. */
  lemma {:induction false} JoinSnoc(fields: seq<string>, x: string, sep: char)
    requires |fields| >= 1
    ensures Join(fields + [x], sep) == Join(fields, sep) + [sep] + x
  {
    if |fields| == 1 {
      assert (fields + [x])[1..] == [x];
    } else {
      assert (fields + [x])[1..] == fields[1..] + [x];
      JoinSnoc(fields[1..], x, sep);
    }
  }
}
