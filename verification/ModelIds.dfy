/** Local model identifiers: code-point strings, possibly with lone surrogates,
    measured and judged as UTF-16.  `Decode` is the algorithm of section 2.2 of
    RFC 2781. */
module ModelIds {
  import opened Outcomes
  import opened Text

  newtype CodePoint = c: int | 0 <= c < 0x110000
  newtype Unit = u: int | 0 <= u < 0x10000

  const MAX_LOCAL_MODEL_ID_UTF16_UNITS := 1024

  predicate High(c: int) { 0xD800 <= c <= 0xDBFF }

  predicate Low(c: int) { 0xDC00 <= c <= 0xDFFF }

  function EncodeOne(c: CodePoint): seq<Unit> {
    if c < 0x10000 then [c as Unit]
    else [(0xD800 + (c as int - 0x10000) / 0x400) as Unit, (0xDC00 + (c as int - 0x10000) % 0x400) as Unit]
  }

  /** UTF-16 with surrogates passed through. */
  function Encode(s: seq<CodePoint>): seq<Unit> {
    if s == [] then [] else EncodeOne(s[0]) + Encode(s[1..])
  }

  function Decode(units: seq<Unit>): Result<seq<CodePoint>> {
    if units == [] then Ok([])
    else if !High(units[0] as int) && !Low(units[0] as int) then
      var rest :- Decode(units[1..]);
      Ok([units[0] as CodePoint] + rest)
    else if Low(units[0] as int) then Err("unpaired low surrogate")
    else if |units| == 1 || !Low(units[1] as int) then Err("unpaired high surrogate")
    else
      var rest :- Decode(units[2..]);
      Ok([(0x10000 + (units[0] as int - 0xD800) * 0x400 + (units[1] as int - 0xDC00)) as CodePoint] + rest)
  }

  /** The first unit of an encoding is a low surrogate exactly when the first code
      point is one. */
  lemma FirstUnit(s: seq<CodePoint>)
    requires s != []
    ensures Encode(s) != [] && (Low(Encode(s)[0] as int) <==> Low(s[0] as int))
  {
  }

  /** The surrogate pair of a supplementary code point names it. */
  lemma PairBack(c: CodePoint)
    requires c >= 0x10000
    ensures |EncodeOne(c)| == 2
    ensures High(EncodeOne(c)[0] as int) && Low(EncodeOne(c)[1] as int)
    ensures 0x10000 + (EncodeOne(c)[0] as int - 0xD800) * 0x400 + (EncodeOne(c)[1] as int - 0xDC00) == c as int
  {
  }

  lemma SkipOne(s: seq<CodePoint>)
    requires s != [] && !High(s[0] as int) && !Low(s[0] as int)
    ensures Decode(Encode(s)).Ok? <==> Decode(Encode(s[1..])).Ok?
    ensures Decode(Encode(s[1..])).Ok? ==> Decode(Encode(s)) == Ok([s[0]] + Decode(Encode(s[1..])).value)
  {
    var e, one, rest := Encode(s), EncodeOne(s[0]), Encode(s[1..]);
    assert e == one + rest;
    if s[0] < 0x10000 {
      assert e[0] == one[0] && e[1..] == rest;
    } else {
      PairBack(s[0]);
      assert e[0] == one[0] && e[1] == one[1] && e[2..] == rest;
    }
  }

  lemma SkipPair(s: seq<CodePoint>)
    requires |s| >= 2 && High(s[0] as int) && Low(s[1] as int)
    ensures Decode(Encode(s)).Ok? <==> Decode(Encode(s[2..])).Ok?
  {
    assert Encode(s) == [s[0] as Unit] + Encode(s[1..]);
    assert Encode(s[1..]) == [s[1] as Unit] + Encode(s[1..][1..]);
    assert s[1..][1..] == s[2..];
    assert Encode(s)[2..] == Encode(s[2..]);
  }

  lemma Stuck(s: seq<CodePoint>)
    requires s != []
    requires Low(s[0] as int) || (High(s[0] as int) && (|s| == 1 || !Low(s[1] as int)))
    ensures Decode(Encode(s)).Err?
  {
    assert Encode(s) == [s[0] as Unit] + Encode(s[1..]);
    if |s| > 1 {
      FirstUnit(s[1..]);
    }
  }

  predicate Decodes(s: seq<CodePoint>) { Decode(Encode(s)).Ok? }

  /** What the scan finds at `index`, and what is left to scan. */
  lemma ScanAt(value: seq<CodePoint>, index: nat)
    requires index < |value|
    ensures var c, rest := value[index] as int, value[index..];
            && (High(c) && (index + 1 == |value| || !Low(value[index + 1] as int)) ==> !Decodes(rest))
            && (High(c) && index + 1 < |value| && Low(value[index + 1] as int)
                ==> (Decodes(rest) <==> Decodes(value[index + 2..])))
            && (Low(c) ==> !Decodes(rest))
            && (!High(c) && !Low(c) ==> (Decodes(rest) <==> Decodes(value[index + 1..])))
  {
    var c, rest := value[index] as int, value[index..];
    if Low(c) || (High(c) && (index + 1 == |value| || !Low(value[index + 1] as int))) {
      Stuck(rest);
    } else if High(c) {
      assert rest[2..] == value[index + 2..];
      SkipPair(rest);
    } else {
      assert rest[1..] == value[index + 1..];
      SkipOne(rest);
    }
  }

  /** The scan: true exactly when the string's UTF-16 form does not decode. */
  method HasUnpairedSurrogate(value: seq<CodePoint>) returns (unpaired: bool)
    ensures unpaired <==> Decode(Encode(value)).Err?
  {
    var index := 0;
    assert value[0..] == value;
    while index < |value|
      invariant 0 <= index <= |value|
      invariant Decodes(value) <==> Decodes(value[index..])
    {
      var codepoint := value[index] as int;
      ScanAt(value, index);
      if High(codepoint) {
        if index + 1 >= |value| || !Low(value[index + 1] as int) {
          return true;
        }
        index := index + 2;
        continue;
      }
      if Low(codepoint) {
        return true;
      }
      index := index + 1;
    }
    assert value[index..] == [];
    unpaired := false;
  }

  /** On Unicode scalar values the encoding is a bijection onto its image. */
  lemma {:induction false} DecodeEncode(s: seq<CodePoint>)
    requires forall i | 0 <= i < |s| :: !High(s[i] as int) && !Low(s[i] as int)
    ensures Decode(Encode(s)) == Ok(s)
  {
    if s != [] {
      DecodeEncode(s[1..]);
      SkipOne(s);
      assert s == [s[0]] + s[1..];
    }
  }

  /** Whatever decodes is the encoding of what it decodes to. */
  lemma {:induction false} EncodeDecode(units: seq<Unit>)
    requires Decode(units).Ok?
    ensures Encode(Decode(units).value) == units
  {
    if units != [] {
      var s := Decode(units).value;
      if !High(units[0] as int) {
        EncodeDecode(units[1..]);
        assert s[1..] == Decode(units[1..]).value;
      } else {
        EncodeDecode(units[2..]);
        assert s[1..] == Decode(units[2..]).value;
        var offset := (units[0] as int - 0xD800) * 0x400 + (units[1] as int - 0xDC00);
        assert offset / 0x400 == units[0] as int - 0xD800 && offset % 0x400 == units[1] as int - 0xDC00;
      }
    }
  }

  function Supplementary(s: seq<CodePoint>): nat {
    if s == [] then 0 else (if s[0] >= 0x10000 then 1 else 0) + Supplementary(s[1..])
  }

  /** `utf16_units`: one unit a code point, and one more for each beyond the Basic
      Multilingual Plane. */
  function Utf16Units(s: seq<CodePoint>): (n: nat)
    ensures n == |s| + Supplementary(s)
  {
    if s == [] then 0 else |EncodeOne(s[0])| + Utf16Units(s[1..])
  }

  lemma {:induction false} UnitsAreLength(s: seq<CodePoint>)
    ensures Utf16Units(s) == |Encode(s)|
  {
    if s != [] {
      UnitsAreLength(s[1..]);
    }
  }

  predicate Forbidden(c: int) {
    SpaceCode(c) || c == 0xFEFF || c <= 0x1F || c == 0x7F
  }

  /** A local model id is a non-empty string without spaces or controls whose
      UTF-16 form decodes and has at most 1024 units. */
  method IsLocalModelId(value: seq<CodePoint>) returns (ok: bool)
    ensures ok <==>
            && value != []
            && |Encode(value)| <= MAX_LOCAL_MODEL_ID_UTF16_UNITS
            && Decode(Encode(value)).Ok?
            && forall i | 0 <= i < |value| :: !Forbidden(value[i] as int)
  {
    UnitsAreLength(value);
    if value == [] || Utf16Units(value) > MAX_LOCAL_MODEL_ID_UTF16_UNITS {
      return false;
    }
    var unpaired := HasUnpairedSurrogate(value);
    ok := !unpaired && forall i | 0 <= i < |value| :: !Forbidden(value[i] as int);
  }
}
