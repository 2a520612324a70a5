/** The part of Python's `pathlib` (POSIX flavour, Python 3.12) that the modelled
    code uses.  A path is its list of segments below the filesystem root; the
    workspace and image layouts are all absolute, so no separate "relative" kind is
    needed. */
module PathLib {

  import opened Results
  import opened PyStrings

  type Path = seq<string>

  predicate IsPrefix(p: Path, q: Path) {
    |p| <= |q| && q[..|p|] == p
  }

  /** `k` lies strictly below `p`. */
  predicate Under(p: Path, k: Path) {
    |p| < |k| && k[..|p|] == p
  }

  /** A segment as pathlib keeps it: never empty, never ".", never containing "/". */
  predicate IsSegment(s: string) {
    s != "" && s != "." && '/' !in s
  }

  /** Drop the pieces pathlib ignores when parsing: empty ones (from "//" or a
      leading or trailing "/") and ".". */
  function Clean(pieces: seq<string>): (r: Path)
    ensures forall i :: 0 <= i < |r| ==> r[i] in pieces && r[i] != "" && r[i] != "."
    ensures (forall i :: 0 <= i < |pieces| ==> IsSegment(pieces[i])) ==> r == pieces
    decreases |pieces|
  {
    if pieces == [] then []
    else if pieces[0] == "" || pieces[0] == "." then Clean(pieces[1..])
    else [pieces[0]] + Clean(pieces[1..])
  }

  /** The segments of the text of a path. */
  function Segments(s: string): (r: Path)
    ensures forall i :: 0 <= i < |r| ==> IsSegment(r[i])
  {
    var pieces := Split(s, '/');
    var r := Clean(pieces);
    assert forall i :: 0 <= i < |r| ==> r[i] in pieces && '/' !in r[i] by {
      forall i | 0 <= i < |r| ensures r[i] in pieces && '/' !in r[i] {
        var j :| 0 <= j < |pieces| && pieces[j] == r[i];
      }
    }
    r
  }

  predicate IsAbsolute(s: string) {
    |s| > 0 && s[0] == '/'
  }

  /** `base / s`: an absolute `s` replaces `base`, a relative one is appended. */
  function JoinPath(base: Path, s: string): (r: Path)
    ensures IsAbsolute(s) ==> r == Segments(s)
    ensures !IsAbsolute(s) ==> IsPrefix(base, r) && r[|base|..] == Segments(s)
  {
    if IsAbsolute(s) then Segments(s) else base + Segments(s)
  }

  /** Lexical resolution of ".." as done by `Path.resolve()` on a path without
      symbolic links: ".." removes the segment before it, and the root is its own
      parent. */
  function Normalize(p: Path): (r: Path)
    ensures ".." !in r
    ensures |r| <= |p|
    ensures ".." !in p ==> r == p
    decreases |p|
  {
    if p == [] then []
    else
      var q := Normalize(p[..|p| - 1]);
      var s := p[|p| - 1];
      assert p == p[..|p| - 1] + [s];
      if s == ".." then (if q == [] then [] else q[..|q| - 1]) else q + [s]
  }

  /** `p.parent`; the root is its own parent. */
  function Parent(p: Path): Path {
    if p == [] then [] else p[..|p| - 1]
  }

  /** `p.name`: the last segment, empty for the root. */
  function Name(p: Path): string {
    if p == [] then "" else p[|p| - 1]
  }

  /** The index of the last '.' in `s`. */
  function LastDot(s: string): (r: Option<nat>)
    ensures r.None? <==> '.' !in s
    ensures r.Some? ==> r.value < |s| && s[r.value] == '.' && '.' !in s[r.value + 1..]
    decreases |s|
  {
    if s == [] then None
    else if s[|s| - 1] == '.' then Some(|s| - 1)
    else
      var r := LastDot(s[..|s| - 1]);
      assert s == s[..|s| - 1] + [s[|s| - 1]];
      if r.Some? then
        assert s[r.value + 1..] == s[..|s| - 1][r.value + 1..] + [s[|s| - 1]];
        r
      else r
  }

  /** `name` without pathlib's `suffix`: the suffix starts at the last '.', unless
      that dot is the first or the last character of the name. */
  function Stem(name: string): (r: string)
    ensures StartsWith(name, r)
    ensures '.' !in name ==> r == name
  {
    match LastDot(name)
    case Some(i) => if 0 < i < |name| - 1 then name[..i] else name
    case None => name
  }

  predicate StartsWith(s: string, prefix: string) {
    |prefix| <= |s| && s[..|prefix|] == prefix
  }

  /** `p.with_suffix(suffix)`: the last segment loses its pathlib suffix and gets
      `suffix`; a path with an empty name (the root) is a ValueError. */
  function WithSuffix(p: Path, suffix: string): (r: Result<Path>)
    ensures r.Err? <==> Name(p) == ""
    ensures r.Ok? ==>
      |r.value| == |p| && r.value[..|p| - 1] == p[..|p| - 1] && r.value[|p| - 1] == Stem(p[|p| - 1]) + suffix
  {
    if Name(p) == "" then Err(EmptyName(p))
    else Ok(Parent(p) + [Stem(Name(p)) + suffix])
  }

  // ---------------------------------------------------------------------------
  // Laws

  /** Segments joined by "/" parse back into the same segments. */
  lemma SegmentsOfJoin(segs: Path)
    requires |segs| >= 1
    requires forall i :: 0 <= i < |segs| ==> IsSegment(segs[i])
    ensures Segments(Join("/", segs)) == segs
  {
    SplitJoin(segs, '/');
  }

  /** A text that is a single segment parses to exactly that segment. */
  lemma SegmentsOfSegment(s: string)
    requires IsSegment(s)
    ensures Segments(s) == [s]
  {
    SplitFree(s, '/');
  }

  /** `with_suffix` on a last segment without a dot appends the suffix to it. */
  lemma WithSuffixOfPlain(dir: Path, last: string, suffix: string)
    requires last != "" && '.' !in last
    ensures WithSuffix(dir + [last], suffix) == Ok(dir + [last + suffix])
  {
    assert Parent(dir + [last]) == dir;
  }

  lemma AppendLast(dir: Path, segs: Path)
    requires segs != []
    ensures dir + segs == dir + segs[..|segs| - 1] + [segs[|segs| - 1]]
  {
    assert segs == segs[..|segs| - 1] + [segs[|segs| - 1]];
  }
}
