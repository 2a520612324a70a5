/** The server's two record kinds, `Image` (server/image.py) and `Container`
    (server/container.py), and their `to_dict` projections.  A projection is a JSON
    value rather than JSON text: `json.dumps` is not part of this model.  Each
    projection has an inverse, so a projection loses nothing. */
module Records {

  import opened Results

  /** The part of JSON the projections produce.  An object keeps its members in
      insertion order, as a Python dict does. */
  datatype Json =
    | JStr(s: string)
    | JInt(i: int)
    | JFloat(f: Float)
    | JArray(items: seq<Json>)
    | JObject(members: seq<(string, Json)>)

  /** A Python float, kept as its IEEE-754 bit pattern and never computed with. */
  datatype Float = Float(bits: bv64)

  /** The value of the first member named `key`. */
  function Lookup(members: seq<(string, Json)>, key: string): (r: Option<Json>)
    ensures r.Some? <==> exists i :: 0 <= i < |members| && members[i].0 == key
    ensures r.Some? ==> exists i :: 0 <= i < |members| && members[i] == (key, r.value)
  {
    if members == [] then None
    else if members[0].0 == key then
      assert members[0] == (key, members[0].1);
      Some(members[0].1)
    else
      var r := Lookup(members[1..], key);
      if r.Some? then
        var i :| 0 <= i < |members[1..]| && members[1..][i] == (key, r.value);
        assert members[i + 1] == (key, r.value);
        r
      else r
  }

  /** The first member named `key` decides the lookup. */
  lemma {:induction false} LookupFirst(members: seq<(string, Json)>, key: string, i: nat)
    requires i < |members| && members[i].0 == key
    requires forall j :: 0 <= j < i ==> members[j].0 != key
    ensures Lookup(members, key) == Some(members[i].1)
  {
    if i > 0 {
      LookupFirst(members[1..], key, i - 1);
    }
  }

  function Keys(members: seq<(string, Json)>): (r: seq<string>)
    ensures |r| == |members| && forall i :: 0 <= i < |r| ==> r[i] == members[i].0
  {
    if members == [] then [] else [members[0].0] + Keys(members[1..])
  }

  /** `[f(x) for x in xs]`. */
  function MapSeq<A, B>(xs: seq<A>, f: A -> B): (r: seq<B>)
    ensures |r| == |xs| && forall i :: 0 <= i < |xs| ==> r[i] == f(xs[i])
  {
    if xs == [] then [] else [f(xs[0])] + MapSeq(xs[1..], f)
  }

  /** Decodes every item with `dec`, failing if any item fails. */
  function DecodeAll<A>(items: seq<Json>, dec: Json -> Option<A>): (r: Option<seq<A>>)
    ensures r.Some? ==> |r.value| == |items|
  {
    if items == [] then Some([])
    else
      match (dec(items[0]), DecodeAll(items[1..], dec))
      case (Some(x), Some(rest)) => Some([x] + rest)
      case _ => None
  }

  /** Decoding the encodings of a list gives the list back, when `dec` undoes
      `enc` on each of its elements. */
  lemma {:induction false} DecodeAllOfMapSeq<A>(xs: seq<A>, enc: A -> Json, dec: Json -> Option<A>)
    requires forall i :: 0 <= i < |xs| ==> dec(enc(xs[i])) == Some(xs[i])
    ensures DecodeAll(MapSeq(xs, enc), dec) == Some(xs)
  {
    if xs != [] {
      var items := MapSeq(xs, enc);
      assert items[1..] == MapSeq(xs[1..], enc);
      DecodeAllOfMapSeq(xs[1..], enc, dec);
      assert xs == [xs[0]] + xs[1..];
    }
  }

  lemma MapSeqAppend<A, B>(xs: seq<A>, x: A, f: A -> B)
    ensures MapSeq(xs + [x], f) == MapSeq(xs, f) + [f(x)]
  {
  }

  // ---------------------------------------------------------------------------
  // datetime.date

  /** A `datetime.date`: year from 1 to 9999, month from 1 to 12, and a day that
      exists in that month of the proleptic Gregorian calendar. */
  datatype Date = Date(year: int, month: int, day: int)

  predicate IsLeap(year: int) {
    year % 4 == 0 && (year % 100 != 0 || year % 400 == 0)
  }

  function DaysInMonth(year: int, month: int): int {
    if month == 2 then (if IsLeap(year) then 29 else 28)
    else if month == 4 || month == 6 || month == 9 || month == 11 then 30
    else 31
  }

  predicate ValidDate(d: Date) {
    1 <= d.year <= 9999 && 1 <= d.month <= 12 && 1 <= d.day <= DaysInMonth(d.year, d.month)
  }

  type CalendarDate = d: Date | ValidDate(d) witness Date(1, 1, 1)

  function Pow10(n: nat): (r: nat)
    ensures r >= 1
  {
    if n == 0 then 1 else 10 * Pow10(n - 1)
  }

  predicate IsDigit(c: char) {
    '0' <= c <= '9'
  }

  /** `n` in decimal, zero-padded on the left to exactly `width` digits. */
  function Digits(n: nat, width: nat): (r: string)
    requires n < Pow10(width)
    ensures |r| == width
    ensures forall i :: 0 <= i < |r| ==> IsDigit(r[i])
  {
    if width == 0 then ""
    else Digits(n / 10, width - 1) + [('0' as int + n % 10) as char]
  }

  /** The number a string of decimal digits denotes. */
  function DigitsValue(s: string): (r: nat)
    requires forall i :: 0 <= i < |s| ==> IsDigit(s[i])
    ensures r < Pow10(|s|)
  {
    if s == [] then 0
    else
      var a := DigitsValue(s[..|s| - 1]);
      var d := s[|s| - 1] as int - '0' as int;
      assert IsDigit(s[|s| - 1]);
      assert a + 1 <= Pow10(|s| - 1);
      assert 10 * a + d < 10 * (a + 1);
      10 * a + d
  }

  /** Reading back the padded digits gives the number. */
  lemma {:induction false} DigitsValueOfDigits(n: nat, width: nat)
    requires n < Pow10(width)
    ensures DigitsValue(Digits(n, width)) == n
  {
    if width > 0 {
      var s := Digits(n, width);
      DigitsValueOfDigits(n / 10, width - 1);
      assert s[..|s| - 1] == Digits(n / 10, width - 1);
    }
  }

  /** `date.isoformat()`: `YYYY-MM-DD`. */
  function IsoFormat(d: CalendarDate): (r: string)
    ensures |r| == 10 && r[4] == '-' && r[7] == '-'
  {
    Digits(d.year, 4) + "-" + Digits(d.month, 2) + "-" + Digits(d.day, 2)
  }

  predicate AllDigits(s: string) {
    forall i :: 0 <= i < |s| ==> IsDigit(s[i])
  }

  /** `date.fromisoformat` on the `YYYY-MM-DD` form: the inverse of `IsoFormat`. */
  function ParseIso(s: string): (r: Option<CalendarDate>)
    ensures r.Some? ==> |s| == 10
  {
    if |s| == 10 && s[4] == '-' && s[7] == '-' && AllDigits(s[..4]) && AllDigits(s[5..7]) && AllDigits(s[8..]) then
      var d := Date(DigitsValue(s[..4]), DigitsValue(s[5..7]), DigitsValue(s[8..]));
      if ValidDate(d) then Some(d) else None
    else None
  }

  lemma ParseIsoOfIsoFormat(d: CalendarDate)
    ensures ParseIso(IsoFormat(d)) == Some(d)
  {
    var s := IsoFormat(d);
    assert s[..4] == Digits(d.year, 4);
    assert s[5..7] == Digits(d.month, 2);
    assert s[8..] == Digits(d.day, 2);
    DigitsValueOfDigits(d.year, 4);
    DigitsValueOfDigits(d.month, 2);
    DigitsValueOfDigits(d.day, 2);
  }

  /** Distinct dates have distinct ISO texts. */
  lemma IsoFormatInjective(a: CalendarDate, b: CalendarDate)
    requires IsoFormat(a) == IsoFormat(b)
    ensures a == b
  {
    ParseIsoOfIsoFormat(a);
    ParseIsoOfIsoFormat(b);
  }

  // ---------------------------------------------------------------------------
  // Image (server/image.py)

  datatype Image = Image(name: string, tag: string, createdAt: CalendarDate, description: string)

  /** `Image.to_dict`: the four fields under their own keys, in this order, the
      creation date as ISO text. */
  function ImageToDict(img: Image): (r: Json)
    ensures r.JObject? && Keys(r.members) == ["name", "tag", "created_at", "description"]
  {
    JObject([("name", JStr(img.name)), ("tag", JStr(img.tag)),
             ("created_at", JStr(IsoFormat(img.createdAt))), ("description", JStr(img.description))])
  }

  /** The text stored under `key`, if it is text. */
  function TextAt(j: Json, key: string): Option<string> {
    if !j.JObject? then None
    else
      match Lookup(j.members, key)
      case Some(JStr(s)) => Some(s)
      case _ => None
  }

  /** Reads an image back from its projection. */
  function ImageFromDict(j: Json): Option<Image> {
    match (TextAt(j, "name"), TextAt(j, "tag"), TextAt(j, "created_at"), TextAt(j, "description"))
    case (Some(name), Some(tag), Some(created), Some(description)) =>
      (match ParseIso(created)
       case Some(d) => Some(Image(name, tag, d, description))
       case None => None)
    case _ => None
  }

  lemma ImageRoundTrip(img: Image)
    ensures ImageFromDict(ImageToDict(img)) == Some(img)
  {
    ImageTexts(img);
    ParseIsoOfIsoFormat(img.createdAt);
  }

  /** Each field of an image is found under its key in the projection. */
  lemma ImageTexts(img: Image)
    ensures var j := ImageToDict(img);
      && TextAt(j, "name") == Some(img.name)
      && TextAt(j, "tag") == Some(img.tag)
      && TextAt(j, "created_at") == Some(IsoFormat(img.createdAt))
      && TextAt(j, "description") == Some(img.description)
  {
    var j := ImageToDict(img);
    assert j.members[0].0 == "name" && j.members[1].0 == "tag" && j.members[2].0 == "created_at";
    assert TextAt(j, "name") == Some(img.name) by { TextOfFirst(j, "name", 0, img.name); }
    assert TextAt(j, "tag") == Some(img.tag) by { TextOfFirst(j, "tag", 1, img.tag); }
    assert TextAt(j, "created_at") == Some(IsoFormat(img.createdAt)) by {
      TextOfFirst(j, "created_at", 2, IsoFormat(img.createdAt));
    }
    assert TextAt(j, "description") == Some(img.description) by {
      TextOfFirst(j, "description", 3, img.description);
    }
  }

  lemma TextOfFirst(j: Json, key: string, i: nat, s: string)
    requires j.JObject? && i < |j.members| && j.members[i] == (key, JStr(s))
    requires forall n :: 0 <= n < i ==> j.members[n].0 != key
    ensures TextAt(j, key) == Some(s)
  {
    LookupFirst(j.members, key, i);
  }

  // ---------------------------------------------------------------------------
  // Container (server/container.py)

  datatype Container = Container(status: string, cpu: Float, memory: int)

  /** `Container.to_dict`: the three fields under their own keys, in this order. */
  function ContainerToDict(ctr: Container): (r: Json)
    ensures r.JObject? && Keys(r.members) == ["status", "cpu", "memory"]
  {
    JObject([("status", JStr(ctr.status)), ("cpu", JFloat(ctr.cpu)), ("memory", JInt(ctr.memory))])
  }

  function ContainerFromDict(j: Json): (r: Option<Container>)
  {
    if !j.JObject? then None
    else
      match (Lookup(j.members, "status"), Lookup(j.members, "cpu"), Lookup(j.members, "memory"))
      case (Some(JStr(status)), Some(JFloat(cpu)), Some(JInt(memory))) => Some(Container(status, cpu, memory))
      case _ => None
  }

  lemma ContainerRoundTrip(ctr: Container)
    ensures ContainerFromDict(ContainerToDict(ctr)) == Some(ctr)
  {
    var m := ContainerToDict(ctr).members;
    LookupFirst(m, "status", 0);
    LookupFirst(m, "cpu", 1);
    LookupFirst(m, "memory", 2);
  }
}
