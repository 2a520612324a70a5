/** The few Python string operations the modelled code relies on, with the laws
    the rest of the model uses: `str.split` with a one-character separator,
    `str.join`, `str.partition`, and `readlines` on a file opened in text mode
    (universal newlines). */
module PyStrings {

  import opened Results

  /** `s.split(sep)`: the pieces between occurrences of `sep`, in order. */
  function Split(s: string, sep: char): (parts: seq<string>)
    ensures |parts| == multiset(s)[sep] + 1
    ensures forall i :: 0 <= i < |parts| ==> sep !in parts[i]
    decreases |s|
  {
    if s == [] then [""]
    else
      var rest := Split(s[1..], sep);
      assert s == [s[0]] + s[1..];
      if s[0] == sep then [""] + rest
      else [[s[0]] + rest[0]] + rest[1..]
  }

  /** `sep.join(parts)`. */
  function Join(sep: string, parts: seq<string>): string
    decreases |parts|
  {
    if |parts| == 0 then ""
    else if |parts| == 1 then parts[0]
    else parts[0] + sep + Join(sep, parts[1..])
  }

  /** `"".join(parts)`. */
  function Concat(parts: seq<string>): string
    decreases |parts|
  {
    if parts == [] then "" else parts[0] + Concat(parts[1..])
  }

  /** Every occurrence of `a` replaced by `b`: an independent description of what
      splitting on `a` and joining with `b` does. */
  function Replace(s: string, a: char, b: char): (r: string)
    ensures |r| == |s|
    ensures forall i :: 0 <= i < |s| ==> r[i] == if s[i] == a then b else s[i]
  {
    seq(|s|, i requires 0 <= i < |s| => if s[i] == a then b else s[i])
  }

  /** `s.partition(c)` reduced to what matters: the text before the first `c`
      and the text after it, or `None` when `c` does not occur. */
  function Partition(s: string, c: char): (r: Option<(string, string)>)
    ensures r.None? <==> c !in s
    ensures r.Some? ==> c !in r.value.0 && s == r.value.0 + [c] + r.value.1
    decreases |s|
  {
    if s == [] then None
    else if s[0] == c then Some(("", s[1..]))
    else match Partition(s[1..], c)
      case None => None
      case Some(p) => Some(([s[0]] + p.0, p.1))
  }

  /** Universal-newline translation done by `open(path)` in text mode when reading:
      `"\r\n"` and a lone `"\r"` both read as `"\n"`. */
  function Universal(s: string): (r: string)
    ensures '\r' !in r
    ensures '\r' !in s ==> r == s
    decreases |s|
  {
    if s == [] then ""
    else if s[0] == '\r' then
      "\n" + Universal(if |s| > 1 && s[1] == '\n' then s[2..] else s[1..])
    else [s[0]] + Universal(s[1..])
  }

  /** The lines of `pieces` (text already split at "\n") with their terminators
      kept; a final empty piece gives no line. */
  function KeepEnds(pieces: seq<string>): seq<string>
    requires |pieces| >= 1
    decreases |pieces|
  {
    if |pieces| == 1 then (if pieces[0] == "" then [] else [pieces[0]])
    else [pieces[0] + "\n"] + KeepEnds(pieces[1..])
  }

  /** `f.readlines()` for a file whose stored text is `text`. */
  function ReadLines(text: string): seq<string>
  {
    KeepEnds(Split(Universal(text), '\n'))
  }

  // ---------------------------------------------------------------------------
  // Laws

  /** Joining two pieces puts one separator between them. */
  lemma JoinPair(sep: string, a: string, b: string)
    ensures Join(sep, [a, b]) == a + sep + b
  {
    assert [a, b][1..] == [b];
  }

  /** Joining the pieces of a split with the same separator gives the text back. */
  lemma {:induction false} JoinSplit(s: string, sep: char)
    ensures Join([sep], Split(s, sep)) == s
    decreases |s|
  {
    if s != [] {
      JoinSplit(s[1..], sep);
      var rest := Split(s[1..], sep);
      if s[0] == sep {
        assert Join([sep], [""] + rest) == "" + [sep] + Join([sep], rest);
      } else {
        JoinCons(s[0], rest, [sep]);
      }
    }
  }

  /** Prepending a character to the first piece prepends it to the join. */
  lemma {:induction false} JoinCons(c: char, parts: seq<string>, sep: string)
    requires |parts| >= 1
    ensures Join(sep, [[c] + parts[0]] + parts[1..]) == [c] + Join(sep, parts)
  {
    var q := [[c] + parts[0]] + parts[1..];
    assert q[1..] == parts[1..];
  }

  /** Splitting a join of separator-free pieces gives the pieces back. */
  lemma {:induction false} SplitJoin(parts: seq<string>, sep: char)
    requires |parts| >= 1
    requires forall i :: 0 <= i < |parts| ==> sep !in parts[i]
    ensures Split(Join([sep], parts), sep) == parts
    decreases |parts|
  {
    if |parts| == 1 {
      SplitFree(parts[0], sep);
    } else {
      SplitJoin(parts[1..], sep);
      SplitPrefix(parts[0], Join([sep], parts[1..]), sep);
      assert [parts[0]] + parts[1..] == parts;
    }
  }

  /** A separator-free text splits into itself. */
  lemma {:induction false} SplitFree(s: string, sep: char)
    requires sep !in s
    ensures Split(s, sep) == [s]
    decreases |s|
  {
    if s != [] {
      SplitFree(s[1..], sep);
      assert [s[0]] + s[1..] == s;
    }
  }

  /** Splitting `a + [sep] + b`, where `a` is separator-free, gives `a` followed by
      the pieces of `b`. */
  lemma {:induction false} SplitPrefix(a: string, b: string, sep: char)
    requires sep !in a
    ensures Split(a + [sep] + b, sep) == [a] + Split(b, sep)
    decreases |a|
  {
    var s := a + [sep] + b;
    if a == [] {
      assert s[1..] == b;
    } else {
      assert s[1..] == a[1..] + [sep] + b;
      SplitPrefix(a[1..], b, sep);
      assert [a[0]] + a[1..] == a;
    }
  }

  /** Splitting on `a` and joining with `[b]` is the same as replacing `a` by `b`. */
  lemma {:induction false} JoinSplitIsReplace(s: string, a: char, b: char)
    ensures Join([b], Split(s, a)) == Replace(s, a, b)
    decreases |s|
  {
    if s != [] {
      JoinSplitIsReplace(s[1..], a, b);
      JoinSplitCons(s, a, b);
      ReplaceCons(s, a, b);
    }
  }

  lemma JoinSplitCons(s: string, a: char, b: char)
    requires s != []
    ensures Join([b], Split(s, a)) == [if s[0] == a then b else s[0]] + Join([b], Split(s[1..], a))
  {
    var rest := Split(s[1..], a);
    if s[0] == a {
      assert Split(s, a) == [""] + rest;
      assert ([""] + rest)[1..] == rest;
    } else {
      assert Split(s, a) == [[s[0]] + rest[0]] + rest[1..];
      JoinCons(s[0], rest, [b]);
    }
  }

  lemma ReplaceCons(s: string, a: char, b: char)
    requires s != []
    ensures Replace(s, a, b) == [if s[0] == a then b else s[0]] + Replace(s[1..], a, b)
  {
  }

  /** `sep.join(xs + [last])` is every element of `xs` followed by `sep`, then `last`:
      `n` elements before the last give exactly `n` separators. */
  lemma {:induction false} JoinSnocIsInterleave(sep: string, xs: seq<string>, last: string)
    ensures Join(sep, xs + [last]) == Concat(Suffixed(xs, sep)) + last
    decreases |xs|
  {
    if xs != [] {
      JoinSnocIsInterleave(sep, xs[1..], last);
      assert (xs + [last])[1..] == xs[1..] + [last];
      assert Suffixed(xs, sep)[1..] == Suffixed(xs[1..], sep);
    }
  }

  /** Each element followed by `sep`. */
  function Suffixed(xs: seq<string>, sep: string): (r: seq<string>)
    ensures |r| == |xs|
    ensures forall i :: 0 <= i < |xs| ==> r[i] == xs[i] + sep
  {
    seq(|xs|, i requires 0 <= i < |xs| => xs[i] + sep)
  }

  /** The kept-terminator lines concatenate back to the pieces joined by "\n". */
  lemma {:induction false} KeepEndsConcat(pieces: seq<string>)
    requires |pieces| >= 1
    ensures Concat(KeepEnds(pieces)) == Join("\n", pieces)
    decreases |pieces|
  {
    if |pieces| > 1 {
      KeepEndsConcat(pieces[1..]);
      var rest := KeepEnds(pieces[1..]);
      assert ([pieces[0] + "\n"] + rest)[1..] == rest;
    }
  }

  /** `readlines` loses no character: the lines concatenate to the text as read
      (after newline translation). */
  lemma ReadLinesConcat(text: string)
    ensures Concat(ReadLines(text)) == Universal(text)
  {
    KeepEndsConcat(Split(Universal(text), '\n'));
    JoinSplit(Universal(text), '\n');
  }

  /** `readlines` of newline-free, carriage-return-free, non-empty lines joined by
      "\n": every line but the last gets its "\n" back, the last has none. */
  lemma ReadLinesOfJoin(lines: seq<string>)
    requires |lines| >= 1
    requires forall i :: 0 <= i < |lines| ==> lines[i] != "" && '\n' !in lines[i] && '\r' !in lines[i]
    ensures ReadLines(Join("\n", lines)) == Suffixed(lines[..|lines| - 1], "\n") + [lines[|lines| - 1]]
  {
    NoCarriageReturnInJoin(lines);
    SplitJoin(lines, '\n');
    KeepEndsOfFree(lines);
  }

  lemma {:induction false} KeepEndsOfFree(lines: seq<string>)
    requires |lines| >= 1
    requires lines[|lines| - 1] != ""
    ensures KeepEnds(lines) == Suffixed(lines[..|lines| - 1], "\n") + [lines[|lines| - 1]]
    decreases |lines|
  {
    if |lines| > 1 {
      KeepEndsOfFree(lines[1..]);
      assert lines[1..][..|lines| - 2] == lines[1..|lines| - 1];
    }
  }

  lemma {:induction false} NoCarriageReturnInJoin(lines: seq<string>)
    requires forall i :: 0 <= i < |lines| ==> '\r' !in lines[i]
    ensures '\r' !in Join("\n", lines)
    decreases |lines|
  {
    if |lines| > 1 {
      NoCarriageReturnInJoin(lines[1..]);
    }
  }
}
