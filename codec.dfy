/** The geometry codec of the window manager: the window list is written into
    one query-string value, records separated by `|`, fields by `:`, with the id
    passed through a one-code-unit shift. */
module Codec {
  import opened WindowTypes

  const Colon: CodeUnit := 58
  const Bar: CodeUnit := 124
  const Minus: CodeUnit := 45
  const Plus: CodeUnit := 43
  const DigitZero: CodeUnit := 48
  const DigitOne: CodeUnit := 49
  const DigitNine: CodeUnit := 57
  const OpenBrace: CodeUnit := 123

  // ---------------------------------------------------------------------------
  // strManip: the per-code-unit shift of the id
  // ---------------------------------------------------------------------------

  datatype Mode = Shift | Unshift

  /** `String.fromCharCode(c + 1)` or `String.fromCharCode(c - 1)`:
      `fromCharCode` keeps the argument modulo 2^16. */
  function StepUnit(c: CodeUnit, mode: Mode): CodeUnit
  {
    var delta := if mode == Shift then 1 else -1;
    ((c as int + delta) % 0x1_0000) as CodeUnit
  }

  /** The string that `strManip(str, mode)` builds. */
  function Manipulated(s: JsString, mode: Mode): (r: JsString)
    ensures |r| == |s|
  {
    seq(|s|, i requires 0 <= i < |s| => StepUnit(s[i], mode))
  }

  /** strManip: the loop that appends one shifted code unit at a time. */
  method StrManip(str: JsString, mode: Mode) returns (result: JsString)
    ensures result == Manipulated(str, mode)
  {
    result := [];
    for i := 0 to |str|
      invariant result == Manipulated(str[..i], mode)
    {
      assert str[..i + 1] == str[..i] + [str[i]];
      result := result + [StepUnit(str[i], mode)];
    }
    assert str[..|str|] == str;
  }

  lemma {:induction false} UnshiftShift(s: JsString)
    ensures Manipulated(Manipulated(s, Shift), Unshift) == s
  {
    var t := Manipulated(s, Shift);
    var u := Manipulated(t, Unshift);
    forall i | 0 <= i < |s|
      ensures u[i] == s[i]
    {
      assert t[i] as int == (s[i] as int + 1) % 0x1_0000;
      assert u[i] as int == (t[i] as int - 1) % 0x1_0000;
    }
  }

  lemma {:induction false} ShiftUnshift(s: JsString)
    ensures Manipulated(Manipulated(s, Unshift), Shift) == s
  {
    var t := Manipulated(s, Unshift);
    var u := Manipulated(t, Shift);
    forall i | 0 <= i < |s|
      ensures u[i] == s[i]
    {
      assert t[i] as int == (s[i] as int - 1) % 0x1_0000;
      assert u[i] as int == (t[i] as int + 1) % 0x1_0000;
    }
  }

  /** The shift turns exactly '9' into ':' and exactly '{' into '|'. */
  lemma ShiftedDelimiters(c: CodeUnit)
    ensures StepUnit(c, Shift) == Colon <==> c == DigitNine
    ensures StepUnit(c, Shift) == Bar <==> c == OpenBrace
  {
  }

  // ---------------------------------------------------------------------------
  // Decimal numbers: template-literal formatting and parseInt(s, 10)
  // ---------------------------------------------------------------------------

  predicate IsDigit(c: CodeUnit) { DigitZero <= c <= DigitNine }

  predicate AllDigits(s: JsString) { forall i :: 0 <= i < |s| ==> IsDigit(s[i]) }

  function DigitOf(d: nat): CodeUnit
    requires d < 10
  {
    (48 + d) as CodeUnit
  }

  /** The decimal digits of `n`, most significant first, without leading zeros. */
  function NatToDecimal(n: nat): (r: JsString)
    ensures |r| >= 1 && AllDigits(r)
    ensures |r| > 1 ==> r[0] != DigitZero
  {
    if n < 10 then [DigitOf(n)] else NatToDecimal(n / 10) + [DigitOf(n % 10)]
  }

  /** `${n}` for an integer-valued number. */
  function IntToDecimal(n: int): JsString
  {
    if n < 0 then [Minus] + NatToDecimal(-n) else NatToDecimal(n)
  }

  /** The value of a string of decimal digits. */
  function DigitsValue(ds: JsString): nat
    requires AllDigits(ds)
  {
    if |ds| == 0 then 0
    else DigitsValue(ds[..|ds| - 1]) * 10 + (ds[|ds| - 1] - DigitZero) as int
  }

  /** White space and line terminators that parseInt skips before the number. */
  predicate IsJsWhitespace(c: CodeUnit)
  {
    c == 0x09 || c == 0x0A || c == 0x0B || c == 0x0C || c == 0x0D || c == 0x20 ||
    c == 0xA0 || c == 0x1680 || (0x2000 <= c <= 0x200A) || c == 0x2028 || c == 0x2029 ||
    c == 0x202F || c == 0x205F || c == 0x3000 || c == 0xFEFF
  }

  function SkipWhitespace(s: JsString): (r: JsString)
    ensures |r| <= |s| && r == s[|s| - |r|..]
    ensures r != [] ==> !IsJsWhitespace(r[0])
  {
    if s != [] && IsJsWhitespace(s[0]) then SkipWhitespace(s[1..]) else s
  }

  /** The longest prefix of `s` made of decimal digits. */
  function LeadingDigits(s: JsString): (r: JsString)
    ensures AllDigits(r) && r <= s
    ensures |r| < |s| ==> !IsDigit(s[|r|])
  {
    if s == [] || !IsDigit(s[0]) then [] else [s[0]] + LeadingDigits(s[1..])
  }

  /** parseInt(s, 10) on an integer-valued result; `None` stands for NaN. */
  function ParseInt(s: JsString): Option<int>
  {
    var t := SkipWhitespace(s);
    var negative := t != [] && t[0] == Minus;
    var body := if t != [] && (t[0] == Minus || t[0] == Plus) then t[1..] else t;
    var ds := LeadingDigits(body);
    if ds == [] then None
    else if negative then Some(-(DigitsValue(ds) as int))
    else Some(DigitsValue(ds))
  }

  lemma {:induction false} AllDigitsLeading(s: JsString)
    requires AllDigits(s)
    ensures LeadingDigits(s) == s
  {
    if s != [] {
      AllDigitsLeading(s[1..]);
    }
  }

  lemma {:induction false} NatToDecimalValue(n: nat)
    ensures DigitsValue(NatToDecimal(n)) == n
  {
    var r := NatToDecimal(n);
    if n >= 10 {
      NatToDecimalValue(n / 10);
      assert r[..|r| - 1] == NatToDecimal(n / 10);
    }
  }

  /** Formatting an integer and parsing it back gives the same integer. */
  lemma ParseIntOfDecimal(n: int)
    ensures ParseInt(IntToDecimal(n)) == Some(n)
  {
    var s := IntToDecimal(n);
    var m: nat := if n < 0 then -n else n;
    var digits := NatToDecimal(m);
    assert !IsJsWhitespace(s[0]);
    assert SkipWhitespace(s) == s;
    AllDigitsLeading(digits);
    NatToDecimalValue(m);
    if n < 0 {
      assert s[0] == Minus && s[1..] == digits;
    } else {
      assert s == digits && s[0] != Minus && s[0] != Plus;
    }
  }

  // ---------------------------------------------------------------------------
  // split and join on a one-code-unit delimiter
  // ---------------------------------------------------------------------------

  /** `s.split(d)`: the pieces between occurrences of `d`, in order. */
  function Split(s: JsString, d: CodeUnit): (r: seq<JsString>)
    ensures |r| >= 1
    ensures forall k :: 0 <= k < |r| ==> d !in r[k]
  {
    if s == [] then [[]]
    else if s[0] == d then [[]] + Split(s[1..], d)
    else
      var rest := Split(s[1..], d);
      [[s[0]] + rest[0]] + rest[1..]
  }

  /** `parts.join(d)`. */
  function Join(parts: seq<JsString>, d: CodeUnit): JsString
  {
    if |parts| == 0 then []
    else if |parts| == 1 then parts[0]
    else parts[0] + [d] + Join(parts[1..], d)
  }

  lemma {:induction false} SplitNoDelimiter(p: JsString, d: CodeUnit)
    requires d !in p
    ensures Split(p, d) == [p]
  {
    if p != [] {
      SplitNoDelimiter(p[1..], d);
      assert [p[0]] + p[1..] == p;
    }
  }

  lemma {:induction false} SplitAtFirst(p: JsString, rest: JsString, d: CodeUnit)
    requires d !in p
    ensures Split(p + [d] + rest, d) == [p] + Split(rest, d)
  {
    var s := p + [d] + rest;
    if p == [] {
      assert s[1..] == rest;
    } else {
      assert s[1..] == p[1..] + [d] + rest;
      SplitAtFirst(p[1..], rest, d);
      assert [p[0]] + p[1..] == p;
    }
  }

  /** Splitting a join gives back the parts, provided no part holds the delimiter. */
  lemma {:induction false} SplitJoin(parts: seq<JsString>, d: CodeUnit)
    requires |parts| >= 1
    requires forall k :: 0 <= k < |parts| ==> d !in parts[k]
    ensures Split(Join(parts, d), d) == parts
  {
    if |parts| == 1 {
      SplitNoDelimiter(parts[0], d);
    } else {
      SplitJoin(parts[1..], d);
      SplitAtFirst(parts[0], Join(parts[1..], d), d);
      assert [parts[0]] + parts[1..] == parts;
    }
  }

  /** Joining the pieces of a split gives back the string. */
  lemma {:induction false} JoinSplit(s: JsString, d: CodeUnit)
    ensures Join(Split(s, d), d) == s
  {
    if s != [] {
      JoinSplit(s[1..], d);
      var rest := Split(s[1..], d);
      if s[0] == d {
        assert [[]] + rest == [[]] + rest;
        assert ([[]] + rest)[1..] == rest;
      } else {
        var r := [[s[0]] + rest[0]] + rest[1..];
        assert r[1..] == rest[1..];
        if |rest| > 1 {
          assert rest == [rest[0]] + rest[1..];
        }
      }
    }
  }

  /** A join begins with its first part. */
  lemma JoinStartsWithFirst(parts: seq<JsString>, d: CodeUnit)
    ensures |parts| > 0 ==> |parts[0]| <= |Join(parts, d)| && Join(parts, d)[..|parts[0]|] == parts[0]
  {
  }

  lemma {:induction false} JoinAvoids(parts: seq<JsString>, d: CodeUnit, e: CodeUnit)
    requires e != d
    requires forall k :: 0 <= k < |parts| ==> e !in parts[k]
    ensures e !in Join(parts, d)
  {
    if |parts| > 1 {
      JoinAvoids(parts[1..], d, e);
    }
  }

  // ---------------------------------------------------------------------------
  // serializeWindowParams / deserializeWindowParams
  // ---------------------------------------------------------------------------

  function FlagText(b: bool): JsString
  {
    if b then [DigitOne] else [DigitZero]
  }

  /** The seven fields of one record, in the order they are written. */
  function RecordFields(w: WindowConfig): seq<JsString>
  {
    [Manipulated(w.id, Shift), IntToDecimal(w.pos.x), IntToDecimal(w.pos.y),
     IntToDecimal(w.size.width), IntToDecimal(w.size.height), FlagText(w.open), FlagText(w.minimized)]
  }

  function EncodeRecord(w: WindowConfig): JsString
  {
    Join(RecordFields(w), Colon)
  }

  /** serializeWindowParams: the records in list order, joined by `|`. */
  function Serialize(ws: seq<WindowConfig>): (r: JsString)
    ensures r == [] <==> ws == []
  {
    var parts := seq(|ws|, i requires 0 <= i < |ws| => EncodeRecord(ws[i]));
    assert ws != [] ==> Colon in EncodeRecord(ws[0]);
    JoinStartsWithFirst(parts, Bar);
    Join(parts, Bar)
  }

  /** The `i`-th field of a split record; `None` when the record is too short
      (the destructured variable is `undefined`). */
  function Field(fs: seq<JsString>, i: nat): Option<JsString>
  {
    if i < |fs| then Some(fs[i]) else None
  }

  /** parseInt of a field; `parseInt(undefined)` is NaN. */
  function ParseField(f: Option<JsString>): Option<int>
  {
    match f
    case None => None
    case Some(s) => ParseInt(s)
  }

  /** `parseInt(f, 10) || fallback`: NaN and zero are both replaced. */
  function SizeField(f: Option<JsString>, fallback: int): (r: int)
    requires fallback != 0
    ensures r != 0
    ensures ParseField(f).None? || ParseField(f) == Some(0) ==> r == fallback
    ensures ParseField(f).Some? && ParseField(f) != Some(0) ==> r == ParseField(f).value
  {
    match ParseField(f)
    case None => fallback
    case Some(v) => if v == 0 then fallback else v
  }

  /** parseInt of a coordinate; a NaN coordinate is read as 0 here. */
  function CoordField(f: Option<JsString>): int
  {
    match ParseField(f)
    case None => 0
    case Some(v) => v
  }

  /** `field === "1"`. */
  predicate FlagField(f: Option<JsString>)
  {
    f == Some([DigitOne])
  }

  function DecodeRecord(part: JsString): (w: WindowConfig)
    ensures w.size.width != 0 && w.size.height != 0
  {
    var fs := Split(part, Colon);
    WindowConfig(
      Manipulated(fs[0], Unshift),
      Pos(CoordField(Field(fs, 1)), CoordField(Field(fs, 2))),
      Size(SizeField(Field(fs, 3), DefaultWidth), SizeField(Field(fs, 4), DefaultHeight)),
      FlagField(Field(fs, 5)),
      FlagField(Field(fs, 6)))
  }

  /** A non-empty piece without any `:` still decodes: the whole piece is the
      id, the coordinates read as 0, the size is the default and both flags
      are off. */
  lemma MalformedPartDefaults(part: JsString)
    requires Colon !in part
    ensures DecodeRecord(part) == WindowConfig(Manipulated(part, Unshift), Pos(0, 0), DefaultSize, false, false)
  {
    SplitNoDelimiter(part, Colon);
  }

  /** deserializeWindowParams: one record per `|`-separated piece; the empty
      string gives the empty list. */
  function Deserialize(param: JsString): (ws: seq<WindowConfig>)
    ensures param == [] <==> ws == []
    ensures param != [] ==> |ws| == |Split(param, Bar)|
    ensures forall i :: 0 <= i < |ws| ==> ws[i].size.width != 0 && ws[i].size.height != 0
  {
    if param == [] then []
    else
      var parts := Split(param, Bar);
      seq(|parts|, i requires 0 <= i < |parts| => DecodeRecord(parts[i]))
  }

  /** A record the codec reproduces exactly: non-zero sizes (zero reads back as
      the default) and no '9' or '{' in the id (they shift to the delimiters). */
  predicate Encodable(w: WindowConfig)
  {
    && w.size.width != 0 && w.size.height != 0
    && DigitNine !in w.id && OpenBrace !in w.id
  }

  lemma DecimalHasNoDelimiter(n: int, e: CodeUnit)
    requires !IsDigit(e) && e != Minus
    ensures e !in IntToDecimal(n)
  {
    var s := IntToDecimal(n);
    forall k | 0 <= k < |s|
      ensures s[k] != e
    {
      if n < 0 && k > 0 {
        assert s[k] == NatToDecimal(-n)[k - 1];
      }
    }
  }

  lemma ShiftedIdAvoids(id: JsString)
    requires DigitNine !in id && OpenBrace !in id
    ensures Colon !in Manipulated(id, Shift) && Bar !in Manipulated(id, Shift)
  {
    var t := Manipulated(id, Shift);
    forall k | 0 <= k < |t|
      ensures t[k] != Colon && t[k] != Bar
    {
      ShiftedDelimiters(id[k]);
    }
  }

  lemma FieldsAvoid(w: WindowConfig, e: CodeUnit)
    requires Encodable(w)
    requires e == Colon || e == Bar
    ensures forall k :: 0 <= k < 7 ==> e !in RecordFields(w)[k]
  {
    ShiftedIdAvoids(w.id);
    DecimalHasNoDelimiter(w.pos.x, e);
    DecimalHasNoDelimiter(w.pos.y, e);
    DecimalHasNoDelimiter(w.size.width, e);
    DecimalHasNoDelimiter(w.size.height, e);
  }

  lemma DecodeEncodeRecord(w: WindowConfig)
    requires Encodable(w)
    ensures Bar !in EncodeRecord(w)
    ensures EncodeRecord(w) != []
    ensures DecodeRecord(EncodeRecord(w)) == w
  {
    var fs := RecordFields(w);
    FieldsAvoid(w, Colon);
    FieldsAvoid(w, Bar);
    JoinAvoids(fs, Colon, Bar);
    SplitJoin(fs, Colon);
    assert EncodeRecord(w) == fs[0] + [Colon] + Join(fs[1..], Colon);
    UnshiftShift(w.id);
    ParseIntOfDecimal(w.pos.x);
    ParseIntOfDecimal(w.pos.y);
    ParseIntOfDecimal(w.size.width);
    ParseIntOfDecimal(w.size.height);
  }

  /** The round-trip law: decoding the encoding of a list of encodable records
      reproduces the list, the empty list included. */
  lemma RoundTrip(ws: seq<WindowConfig>)
    requires forall i :: 0 <= i < |ws| ==> Encodable(ws[i])
    ensures Deserialize(Serialize(ws)) == ws
  {
    var encoded := seq(|ws|, i requires 0 <= i < |ws| => EncodeRecord(ws[i]));
    if ws != [] {
      forall k | 0 <= k < |ws|
        ensures Bar !in encoded[k] && encoded[k] != [] && DecodeRecord(encoded[k]) == ws[k]
      {
        DecodeEncodeRecord(ws[k]);
      }
      SplitJoin(encoded, Bar);
      assert Serialize(ws) != [] by {
        if |ws| > 1 {
          assert Serialize(ws) == encoded[0] + [Bar] + Join(encoded[1..], Bar);
        }
      }
    }
  }
}
