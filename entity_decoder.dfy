/** The HTML character-reference decoder the adapters apply to extracted
    text: first every decimal reference `&#NNN;` becomes the code unit
    `String.fromCharCode(NNN)` (the number taken modulo 2^16), then the named
    references of a fixed table are replaced, one table entry after another,
    each over the whole text. The two adapters carry their own copies of the
    decoder; they differ only in the table, the one of animeblkom.js having
    a sixth entry for `&nbsp;`. */
module EntityDecoder {
  import opened JsText

  const Ampersand: CodeUnit := 0x26
  const NumberSign: CodeUnit := 0x23
  const Semicolon: CodeUnit := 0x3B
  const Space: CodeUnit := 0x20

  /** The named references, as code units (`EntityNames` spells them out). */
  const QuotRef: Text := [0x26, 0x71, 0x75, 0x6F, 0x74, 0x3B]
  const AmpRef: Text := [0x26, 0x61, 0x6D, 0x70, 0x3B]
  const AposRef: Text := [0x26, 0x61, 0x70, 0x6F, 0x73, 0x3B]
  const LtRef: Text := [0x26, 0x6C, 0x74, 0x3B]
  const GtRef: Text := [0x26, 0x67, 0x74, 0x3B]
  const NbspRef: Text := [0x26, 0x6E, 0x62, 0x73, 0x70, 0x3B]

  /** The table of OkAnime.js: the named references and their characters,
      in the order the decoder replaces them (the insertion order of the
      keys of its table object). */
  const NamedEntities: seq<(Text, Text)> := [
    (QuotRef, [0x22]),
    (AmpRef, [0x26]),
    (AposRef, [0x27]),
    (LtRef, [0x3C]),
    (GtRef, [0x3E])
  ]

  /** The table of animeblkom.js: the same five entries, then `&nbsp;`,
      which it replaces by a plain space. */
  const NamedEntitiesWithNbsp: seq<(Text, Text)> := NamedEntities + [(NbspRef, [Space])]

  /** The tables, spelled as the source spells them. */
  lemma EntityNames()
    ensures NamedEntities == [
              (Lit("&quot;"), Lit("\"")),
              (Lit("&amp;"), Lit("&")),
              (Lit("&apos;"), Lit("'")),
              (Lit("&lt;"), Lit("<")),
              (Lit("&gt;"), Lit(">"))
            ]
    ensures NamedEntitiesWithNbsp == NamedEntities + [(Lit("&nbsp;"), Lit(" "))]
  {
    assert Lit("\"") == [0x22] && Lit("&") == [0x26] && Lit("'") == [0x27] && Lit("<") == [0x3C] && Lit(">") == [0x3E];
    assert Lit("&quot;") == QuotRef && Lit("&amp;") == AmpRef && Lit("&apos;") == AposRef;
    assert Lit("&lt;") == LtRef && Lit("&gt;") == GtRef;
    assert Lit("&nbsp;") == NbspRef && Lit(" ") == [Space];
  }

  /** Length of the run of decimal digits at the front of `s`. */
  function DigitRun(s: Text): (k: nat)
    ensures k <= |s|
    ensures IsDigits(s[..k])
    ensures k < |s| ==> !IsDigit(s[k])
  {
    if s == [] || !IsDigit(s[0]) then 0 else 1 + DigitRun(s[1..])
  }

  /** Length of the reference `&#` digits `;` that `s` starts with, or 0 when
      it starts with none. The digit run is maximal, so the regular
      expression `&#(\d+);` matches at the front of `s` exactly when this is
      positive. */
  function NumericRefLength(s: Text): (n: nat)
    ensures n <= |s|
    ensures n > 0 ==> 4 <= n && s[0] == Ampersand && s[1] == NumberSign
                      && IsDigits(s[2..n - 1]) && s[n - 1] == Semicolon
  {
    if |s| >= 2 && s[0] == Ampersand && s[1] == NumberSign then
      var k := DigitRun(s[2..]);
      if k >= 1 && 2 + k < |s| && s[2 + k] == Semicolon then
        assert s[2..2 + k] == s[2..][..k];
        3 + k
      else 0
    else 0
  }

  /** `String.fromCharCode(n)`: the number reduced modulo 2^16, so a number
      below 2^16 is its own code unit and no code unit exceeds the number. */
  function FromCharCode(n: nat): (c: CodeUnit)
    ensures n < 0x1_0000 ==> c as int == n
    ensures c as int <= n
  {
    (n % 0x1_0000) as CodeUnit
  }

  /** Numbers 2^16 apart give the same code unit. */
  lemma FromCharCodeWraps(n: nat)
    ensures FromCharCode(n + 0x1_0000) == FromCharCode(n)
  {
  }

  /** `text.replace(/&#(\d+);/g, (match, dec) => String.fromCharCode(dec))`.
      Every reference is at least four code units long and becomes one, so
      the text never grows; text without `&` is left as it is. */
  function NumericRefs(s: Text): (r: Text)
    ensures |r| <= |s|
    ensures Ampersand !in s ==> r == s
    ensures s != [] ==> r != []
    decreases |s|
  {
    if s == [] then []
    else
      var n := NumericRefLength(s);
      if n > 0 then [FromCharCode(DecimalValue(s[2..n - 1]))] + NumericRefs(s[n..])
      else
        assert Ampersand !in s ==> Ampersand !in s[1..];
        [s[0]] + NumericRefs(s[1..])
  }

  /** Every named reference starts with `&` and is replaced by one code unit. */
  predicate ShrinkingTable(table: seq<(Text, Text)>)
  {
    forall i :: 0 <= i < |table| ==>
      table[i].0 != [] && table[i].0[0] == Ampersand && |table[i].1| == 1 && |table[i].1| <= |table[i].0|
  }

  /** The named references of `table` replaced in table order. */
  function ApplyNamed(s: Text, table: seq<(Text, Text)>): Text
    requires ShrinkingTable(table)
  {
    if table == [] then s
    else
      var last := table[|table| - 1];
      ReplaceAll(ApplyNamed(s, table[..|table| - 1]), last.0, last.1)
  }

  /** Both tables replace references that start with `&` by one code unit. */
  lemma TablesShrink()
    ensures ShrinkingTable(NamedEntities) && ShrinkingTable(NamedEntitiesWithNbsp)
  {
  }

  /** What `decodeHTMLEntities(s)` of OkAnime.js returns. It is never
      longer than `s`, since every replacement turns a reference into a
      single code unit; text without `&` comes back unchanged; and the
      result is empty exactly for empty text. */
  function Decoded(s: Text): (r: Text)
    ensures |r| <= |s|
    ensures Ampersand !in s ==> r == s
    ensures r == [] <==> s == []
  {
    TablesShrink();
    ApplyNamedFacts(NumericRefs(s), NamedEntities);
    ApplyNamed(NumericRefs(s), NamedEntities)
  }

  /** What `decodeHTMLEntities(s)` of animeblkom.js returns, with the same
      three facts. */
  function DecodedWithNbsp(s: Text): (r: Text)
    ensures |r| <= |s|
    ensures Ampersand !in s ==> r == s
    ensures r == [] <==> s == []
  {
    TablesShrink();
    ApplyNamedFacts(NumericRefs(s), NamedEntitiesWithNbsp);
    ApplyNamed(NumericRefs(s), NamedEntitiesWithNbsp)
  }

  /** `decodeHTMLEntities` with the given table: the numeric pass, then one
      global replacement per table entry, reassigning the text each time. */
  method DecodeHtmlEntities(text: Text, table: seq<(Text, Text)>) returns (r: Text)
    requires ShrinkingTable(table)
    ensures r == ApplyNamed(NumericRefs(text), table)
  {
    var numeric := NumericRefs(text);
    r := numeric;
    for i := 0 to |table|
      invariant ShrinkingTable(table[..i])
      invariant r == ApplyNamed(numeric, table[..i])
    {
      var (entity, replacement) := table[i];
      assert table[..i + 1][..i] == table[..i];
      assert forall j :: 0 <= j < i + 1 ==> table[..i + 1][j] == table[j];
      r := ReplaceAll(r, entity, replacement);
    }
    assert table[..|table|] == table;
  }

  lemma {:induction false} ApplyNamedFacts(s: Text, table: seq<(Text, Text)>)
    requires ShrinkingTable(table)
    ensures |ApplyNamed(s, table)| <= |s|
    ensures Ampersand !in s ==> ApplyNamed(s, table) == s
    ensures s != [] ==> ApplyNamed(s, table) != []
  {
    if table != [] {
      var init := table[..|table| - 1];
      assert ShrinkingTable(init) by {
        forall i | 0 <= i < |init| ensures init[i] == table[i] { }
      }
      ApplyNamedFacts(s, init);
    }
  }

  /** The decoder of animeblkom.js is that of OkAnime.js followed by one
      more global replacement, of `&nbsp;` by a space. */
  lemma DecodedWithNbspChain(s: Text)
    ensures DecodedWithNbsp(s) == ReplaceAll(Decoded(s), NbspRef, [Space])
  {
    TablesShrink();
    assert NamedEntitiesWithNbsp[..|NamedEntitiesWithNbsp| - 1] == NamedEntities;
  }

  /** Text without `#` holds no numeric reference and is left as it is by
      the numeric pass. */
  lemma {:induction false} NumericRefsWithoutNumberSign(s: Text)
    requires NumberSign !in s
    ensures NumericRefs(s) == s
  {
    if s != [] {
      assert NumberSign !in s[1..];
      NumericRefsWithoutNumberSign(s[1..]);
    }
  }

  /** The named pass written out: five global replacements, quot first and
      gt last. */
  lemma DecodedChain(s: Text)
    ensures Decoded(s) == ReplaceAll(ReplaceAll(ReplaceAll(ReplaceAll(ReplaceAll(
                            NumericRefs(s), QuotRef, [0x22]), AmpRef, [0x26]), AposRef, [0x27]), LtRef, [0x3C]), GtRef, [0x3E])
  {
    var x := NumericRefs(s);
    assert NamedEntities[..0] == [];
    ApplyNamedStep(x, 0);
    ApplyNamedStep(x, 1);
    ApplyNamedStep(x, 2);
    ApplyNamedStep(x, 3);
    ApplyNamedStep(x, 4);
    assert NamedEntities[..5] == NamedEntities;
  }

  /** One more table entry applied. */
  lemma ApplyNamedStep(s: Text, i: nat)
    requires i < |NamedEntities|
    ensures ShrinkingTable(NamedEntities[..i]) && ShrinkingTable(NamedEntities[..i + 1])
    ensures ApplyNamed(s, NamedEntities[..i + 1])
            == ReplaceAll(ApplyNamed(s, NamedEntities[..i]), NamedEntities[i].0, NamedEntities[i].1)
  {
    assert NamedEntities[..i + 1][..i] == NamedEntities[..i];
  }

  /** The named pass alone, for text without numeric references. */
  function NamedPass(s: Text): Text
  {
    ReplaceAll(ReplaceAll(ReplaceAll(ReplaceAll(ReplaceAll(
      s, QuotRef, [0x22]), AmpRef, [0x26]), AposRef, [0x27]), LtRef, [0x3C]), GtRef, [0x3E])
  }

  lemma DecodedWithoutNumberSign(s: Text)
    requires NumberSign !in s
    ensures Decoded(s) == NamedPass(s)
  {
    DecodedChain(s);
    NumericRefsWithoutNumberSign(s);
  }

  /** A global replacement over text whose only possible match is at the
      front. */
  lemma ReplaceAtFront(s: Text, pat: Text, rep: Text)
    requires pat != [] && s != [] && pat[0] !in s[1..]
    ensures ReplaceAll(s, pat, rep) == if StartsWith(s, pat) then rep + s[|pat|..] else s
  {
    if StartsWith(s, pat) {
      assert pat[0] !in s[|pat|..] by {
        if |pat| > 0 {
          assert s[|pat|..] == s[1..][|pat| - 1..];
        }
      }
    }
  }

  /** A pass over text whose only `&` is at the front, and which differs
      from the reference at position `k`, leaves the text alone. */
  lemma PassSkips(s: Text, pat: Text, rep: Text, k: nat)
    requires pat != [] && s != [] && pat[0] !in s[1..]
    requires k < |pat| && (k >= |s| || s[k] != pat[k])
    ensures ReplaceAll(s, pat, rep) == s
  {
    ReplaceAtFront(s, pat, rep);
  }

  /** A pass over text that starts with the reference, and has no other
      `&`, replaces just that front occurrence. */
  lemma PassHits(s: Text, pat: Text, rep: Text)
    requires pat != [] && StartsWith(s, pat) && pat[0] !in s[1..]
    ensures ReplaceAll(s, pat, rep) == rep + s[|pat|..]
  {
    ReplaceAtFront(s, pat, rep);
  }

  /** The named pass over one reference standing alone. */
  lemma NamedPassQuot(s: Text)
    requires s == QuotRef
    ensures NamedPass(s) == [0x22]
  {
    var x1 := ReplaceAll(s, QuotRef, [0x22]);
    PassHits(s, QuotRef, [0x22]);
    assert x1 == [0x22];
  }

  lemma NamedPassAmp(s: Text)
    requires s == AmpRef
    ensures NamedPass(s) == [0x26]
  {
    var x1 := ReplaceAll(s, QuotRef, [0x22]);
    PassSkips(s, QuotRef, [0x22], 1);
    var x2 := ReplaceAll(x1, AmpRef, [0x26]);
    PassHits(x1, AmpRef, [0x26]);
    assert x2 == [0x26];
  }

  lemma NamedPassApos(s: Text)
    requires s == AposRef
    ensures NamedPass(s) == [0x27]
  {
    var x1 := ReplaceAll(s, QuotRef, [0x22]);
    PassSkips(s, QuotRef, [0x22], 1);
    var x2 := ReplaceAll(x1, AmpRef, [0x26]);
    PassSkips(x1, AmpRef, [0x26], 2);
    var x3 := ReplaceAll(x2, AposRef, [0x27]);
    PassHits(x2, AposRef, [0x27]);
    assert x3 == [0x27];
  }

  lemma NamedPassLt(s: Text)
    requires s == LtRef
    ensures NamedPass(s) == [0x3C]
  {
    var x1 := ReplaceAll(s, QuotRef, [0x22]);
    PassSkips(s, QuotRef, [0x22], 1);
    var x2 := ReplaceAll(x1, AmpRef, [0x26]);
    PassSkips(x1, AmpRef, [0x26], 1);
    var x3 := ReplaceAll(x2, AposRef, [0x27]);
    PassSkips(x2, AposRef, [0x27], 1);
    var x4 := ReplaceAll(x3, LtRef, [0x3C]);
    PassHits(x3, LtRef, [0x3C]);
    assert x4 == [0x3C];
  }

  lemma NamedPassGt(s: Text)
    requires s == GtRef
    ensures NamedPass(s) == [0x3E]
  {
    var x1 := ReplaceAll(s, QuotRef, [0x22]);
    PassSkips(s, QuotRef, [0x22], 1);
    var x2 := ReplaceAll(x1, AmpRef, [0x26]);
    PassSkips(x1, AmpRef, [0x26], 1);
    var x3 := ReplaceAll(x2, AposRef, [0x27]);
    PassSkips(x2, AposRef, [0x27], 1);
    var x4 := ReplaceAll(x3, LtRef, [0x3C]);
    PassSkips(x3, LtRef, [0x3C], 1);
    var x5 := ReplaceAll(x4, GtRef, [0x3E]);
    PassHits(x4, GtRef, [0x3E]);
    assert x5 == [0x3E];
  }

  /** Each named reference, written alone, decodes to its character. */
  lemma DecodesNamedEntity(k: nat)
    requires k < |NamedEntities|
    ensures Decoded(NamedEntities[k].0) == NamedEntities[k].1
  {
    var s := NamedEntities[k].0;
    DecodedWithoutNumberSign(s);
    if k == 0 {
      NamedPassQuot(s);
    } else if k == 1 {
      NamedPassAmp(s);
    } else if k == 2 {
      NamedPassApos(s);
    } else if k == 3 {
      NamedPassLt(s);
    } else {
      NamedPassGt(s);
    }
  }

  /** `&nbsp;` is not in the table of OkAnime.js, whose named pass leaves
      it alone. */
  lemma NamedPassNbsp(s: Text)
    requires s == NbspRef
    ensures NamedPass(s) == s
  {
    PassSkips(s, QuotRef, [0x22], 1);
    PassSkips(s, AmpRef, [0x26], 1);
    PassSkips(s, AposRef, [0x27], 1);
    PassSkips(s, LtRef, [0x3C], 1);
    PassSkips(s, GtRef, [0x3E], 1);
  }

  /** The two decoders differ on `&nbsp;`: animeblkom.js turns it into a
      space, OkAnime.js keeps it as it is. */
  lemma NbspDecoders(s: Text)
    requires s == NbspRef
    ensures Decoded(s) == s
    ensures DecodedWithNbsp(s) == [Space]
  {
    NamedPassNbsp(s);
    DecodedWithoutNumberSign(s);
    DecodedWithNbspChain(s);
    PassHits(s, NbspRef, [Space]);
    assert s[|NbspRef|..] == [];
  }

  lemma NamedPassAmpLt(s: Text)
    requires s == [0x26, 0x61, 0x6D, 0x70, 0x3B, 0x6C, 0x74, 0x3B]
    ensures NamedPass(s) == [0x3C]
  {
    var x1 := ReplaceAll(s, QuotRef, [0x22]);
    PassSkips(s, QuotRef, [0x22], 1);
    var x2 := ReplaceAll(x1, AmpRef, [0x26]);
    PassHits(x1, AmpRef, [0x26]);
    assert x2 == LtRef;
    NamedPassLt(x2);
  }

  lemma NamedPassAmpAmp(s: Text)
    requires s == [0x26, 0x61, 0x6D, 0x70, 0x3B, 0x61, 0x6D, 0x70, 0x3B]
    ensures NamedPass(s) == AmpRef
  {
    var x1 := ReplaceAll(s, QuotRef, [0x22]);
    PassSkips(s, QuotRef, [0x22], 1);
    var x2 := ReplaceAll(x1, AmpRef, [0x26]);
    PassHits(x1, AmpRef, [0x26]);
    assert x2 == AmpRef;
    var x3 := ReplaceAll(x2, AposRef, [0x27]);
    PassSkips(x2, AposRef, [0x27], 2);
    var x4 := ReplaceAll(x3, LtRef, [0x3C]);
    PassSkips(x3, LtRef, [0x3C], 1);
    var x5 := ReplaceAll(x4, GtRef, [0x3E]);
    PassSkips(x4, GtRef, [0x3E], 1);
  }

  /** The replacement order shows: `&amp;` is replaced before `&lt;`, so
      `&amp;lt;` comes out as `<` in a single pass. */
  lemma DecodingOrder(s: Text)
    requires s == AmpRef + LtRef[1..]
    ensures Decoded(s) == [0x3C]
  {
    NamedPassAmpLt(s);
    DecodedWithoutNumberSign(s);
  }

  lemma DecodesAmpAmp(s: Text)
    requires s == AmpRef + AmpRef[1..]
    ensures Decoded(s) == AmpRef
  {
    NamedPassAmpAmp(s);
    DecodedWithoutNumberSign(s);
  }

  /** Decoding twice is not decoding once: `&amp;amp;` decodes to `&amp;`,
      which a second pass turns into `&`. */
  lemma DecodingNotIdempotent(s: Text)
    requires s == AmpRef + AmpRef[1..]
    ensures Decoded(s) == AmpRef
    ensures Decoded(Decoded(s)) == [Ampersand]
  {
    DecodesAmpAmp(s);
    var t := Decoded(s);
    NamedPassAmp(t);
    DecodedWithoutNumberSign(t);
  }

  /** Every reference `&#` digits `;` at the front of `s` is found, with its
      full length: the converse of `NumericRefLength`'s contract. */
  lemma NumericRefFound(s: Text, k: nat)
    requires 3 <= k < |s| && s[0] == Ampersand && s[1] == NumberSign
    requires IsDigits(s[2..k]) && s[k] == Semicolon
    ensures NumericRefLength(s) == k + 1
  {
    assert s[2..] == s[2..k] + s[k..];
    DigitRunOf(s[2..k], s[k..]);
  }

  /** A numeric reference anywhere is decoded: one at the front becomes
      its code unit, and the pass goes on with the text after it. */
  lemma NumericRefStep(digits: Text, rest: Text)
    requires IsDigits(digits) && digits != []
    ensures NumericRefs([Ampersand, NumberSign] + digits + [Semicolon] + rest)
            == [FromCharCode(DecimalValue(digits))] + NumericRefs(rest)
  {
    var s := [Ampersand, NumberSign] + digits + [Semicolon] + rest;
    assert s[2..2 + |digits|] == digits;
    assert s[2 + |digits|] == Semicolon;
    NumericRefFound(s, 2 + |digits|);
    assert s[3 + |digits|..] == rest;
  }

  /** Text that does not start with a numeric reference keeps its first
      code unit, and the pass goes on after it. */
  lemma NumericRefsMiss(s: Text)
    requires s != [] && NumericRefLength(s) == 0
    ensures NumericRefs(s) == [s[0]] + NumericRefs(s[1..])
  {
  }

  /** A front part at none of whose positions a numeric reference starts
      is copied as it is, whatever `&` it holds, and the pass goes on with
      the rest. */
  lemma {:induction false} NumericRefsNoRefPrefix(x: Text, y: Text)
    requires forall i :: 0 <= i < |x| ==> NumericRefLength((x + y)[i..]) == 0
    ensures NumericRefs(x + y) == x + NumericRefs(y)
    decreases |x|
  {
    if x == [] {
      assert x + y == y;
    } else {
      var s := x + y;
      assert s[0..] == s;
      NumericRefsMiss(s);
      assert s[1..] == x[1..] + y;
      forall i | 0 <= i < |x[1..]|
        ensures NumericRefLength((x[1..] + y)[i..]) == 0
      {
        assert (x[1..] + y)[i..] == s[i + 1..];
      }
      NumericRefsNoRefPrefix(x[1..], y);
      ConsAppend(x, NumericRefs(y));
    }
  }

  /** Text without `&` in front of the rest is copied as it is. */
  lemma NumericRefsPlainPrefix(x: Text, y: Text)
    requires Ampersand !in x
    ensures NumericRefs(x + y) == x + NumericRefs(y)
  {
    forall i | 0 <= i < |x|
      ensures NumericRefLength((x + y)[i..]) == 0
    {
      assert (x + y)[i..][0] == x[i];
    }
    NumericRefsNoRefPrefix(x, y);
  }

  /** A numeric reference `&#` d `;` followed by `rest` without another `#`. */
  lemma NumericRefDecodes(s: Text, digits: Text, rest: Text)
    requires IsDigits(digits) && digits != [] && NumberSign !in rest
    requires s == [Ampersand, NumberSign] + digits + [Semicolon] + rest
    ensures NumericRefs(s) == [FromCharCode(DecimalValue(digits))] + rest
  {
    NumericRefStep(digits, rest);
    NumericRefsWithoutNumberSign(rest);
  }

  lemma {:induction false} DigitRunOf(digits: Text, t: Text)
    requires IsDigits(digits) && (t == [] || !IsDigit(t[0]))
    ensures DigitRun(digits + t) == |digits|
  {
    if digits != [] {
      assert (digits + t)[1..] == digits[1..] + t;
      DigitRunOf(digits[1..], t);
    } else {
      assert digits + t == t;
    }
  }

  /** Numeric references are decoded with the 16-bit wrap of
      `String.fromCharCode`: `&#65;` gives `A`, and so does `&#65601;`
      (65601 = 65536 + 65). */
  lemma DecodesNumericReference(s: Text, digits: Text)
    requires digits == [0x36, 0x35]
    requires s == [Ampersand, NumberSign] + digits + [Semicolon]
    ensures Decoded(s) == [0x41]
  {
    PlainDigits(digits);
    NumericRefDecodes(s, digits, []);
    var t := NumericRefs(s);
    assert t == [0x41];
    DecodedChain(s);
    DecodedChain(t);
    NumericRefsWithoutNumberSign(t);
  }

  lemma PlainDigits(digits: Text)
    requires digits == [0x36, 0x35]
    ensures IsDigits(digits) && DecimalValue(digits) == 65
  {
    assert digits[..1] == [0x36] && digits[..1][..0] == [];
    assert DecimalValue(digits[..1]) == 6;
    assert DecimalValue(digits) == 65;
  }

  lemma WrappedDigits(digits: Text)
    requires digits == [0x36, 0x35, 0x36, 0x30, 0x31]
    ensures IsDigits(digits) && DecimalValue(digits) == 65601
  {
    var d1, d2, d3, d4 := digits[..1], digits[..2], digits[..3], digits[..4];
    assert d1 == [0x36] && d1[..0] == [];
    assert d2[..1] == d1;
    assert d3[..2] == d2;
    assert d4[..3] == d3;
    assert digits[..4] == d4;
    assert DecimalValue(d1) == 6;
    assert DecimalValue(d2) == 65;
    assert DecimalValue(d3) == 656;
    assert DecimalValue(d4) == 6560;
    assert DecimalValue(digits) == 65601;
  }

  lemma DecodesWrappedNumericReference(s: Text, digits: Text)
    requires digits == [0x36, 0x35, 0x36, 0x30, 0x31]
    requires s == [Ampersand, NumberSign] + digits + [Semicolon]
    ensures Decoded(s) == [0x41]
  {
    WrappedDigits(digits);
    NumericRefDecodes(s, digits, []);
    var t := NumericRefs(s);
    assert t == [0x41];
    DecodedChain(s);
    DecodedChain(t);
    NumericRefsWithoutNumberSign(t);
  }

  /** `&#38;` is the numeric reference of `&`. */
  lemma NumericAmpersand(s: Text, digits: Text, rest: Text)
    requires digits == [0x33, 0x38] && NumberSign !in rest
    requires s == [Ampersand, NumberSign] + digits + [Semicolon] + rest
    ensures NumericRefs(s) == [Ampersand] + rest
  {
    assert digits[..1] == [0x33] && digits[..1][..0] == [];
    assert DecimalValue(digits[..1]) == 3;
    assert DecimalValue(digits) == 38;
    NumericRefDecodes(s, digits, rest);
  }

  /** The numeric pass runs before the named one: `&#38;quot;` turns into
      `&quot;` and then into `"`. */
  lemma NumericBeforeNamed(s: Text, digits: Text)
    requires digits == [0x33, 0x38]
    requires s == [Ampersand, NumberSign] + digits + [Semicolon] + QuotRef[1..]
    ensures Decoded(s) == [0x22]
  {
    NumericAmpersand(s, digits, QuotRef[1..]);
    var t := NumericRefs(s);
    assert t == QuotRef;
    DecodedChain(s);
    NamedPassQuot(t);
  }

  /** A pass over `x + t`, where `x` holds no `&` and `t` starts with an
      `&` that begins no occurrence of the reference (it differs from it at
      position `k`): both are kept and the pass goes on after that `&`. */
  lemma PassSkipsAfter(x: Text, t: Text, pat: Text, rep: Text, k: nat)
    requires pat != [] && pat[0] !in x && t != []
    requires k < |pat| && (k >= |t| || t[k] != pat[k])
    ensures ReplaceAll(x + t, pat, rep) == x + [t[0]] + ReplaceAll(t[1..], pat, rep)
  {
    forall i | 0 <= i < |x|
      ensures !StartsWith((x + t)[i..], pat)
    {
      assert (x + t)[i..][0] == x[i];
    }
    ReplaceAllPrefix(x, pat, rep, t);
    ReplaceAllMiss(t, pat, rep);
  }

  /** A reference inside text is decoded in place: `a&lt;b` gives `a<b`. */
  lemma DecodesInText(s: Text)
    requires s == [0x61] + LtRef + [0x62]
    ensures Decoded(s) == [0x61, 0x3C, 0x62]
  {
    DecodedWithoutNumberSign(s);
    var t := [0x61] + LtRef;
    PassSkipsAfter([0x61], LtRef + [0x62], QuotRef, [0x22], 1);
    PassSkipsAfter([0x61], LtRef + [0x62], AmpRef, [0x26], 1);
    PassSkipsAfter([0x61], LtRef + [0x62], AposRef, [0x27], 1);
    assert [0x61] + [Ampersand] + (LtRef + [0x62])[1..] == s;
    ReplaceAllAfter([0x61], LtRef, [0x3C], [0x62]);
  }

  /** A pass whose reference is not `&gt;` leaves `lt;b&gt;` alone. */
  lemma TailKept(t: Text, pat: Text, rep: Text)
    requires t == [0x6C, 0x74, 0x3B, 0x62] + GtRef
    requires |pat| >= 2 && pat[0] == Ampersand && pat[1] != 0x67
    ensures ReplaceAll(t, pat, rep) == t
  {
    var mid: Text := [0x6C, 0x74, 0x3B, 0x62];
    PassSkipsAfter(mid, GtRef, pat, rep, 1);
    assert mid + [Ampersand] + GtRef[1..] == t;
  }

  /** A pass whose reference is neither `&lt;` nor `&gt;` leaves
      `&lt;b&gt;` alone. */
  lemma TwoReferencesSkip(s: Text, pat: Text, rep: Text)
    requires s == LtRef + [0x62] + GtRef
    requires |pat| >= 2 && pat[0] == Ampersand && pat[1] != 0x6C && pat[1] != 0x67
    ensures ReplaceAll(s, pat, rep) == s
  {
    assert s[1] != pat[1];
    ReplaceAllMiss(s, pat, rep);
    assert s[1..] == [0x6C, 0x74, 0x3B, 0x62] + GtRef;
    TailKept(s[1..], pat, rep);
    assert [s[0]] + s[1..] == s;
  }

  /** The `&lt;` pass leaves `b&gt;` alone. */
  lemma TailKeptByLt(y: Text)
    requires y == [0x62] + GtRef
    ensures ReplaceAll(y, LtRef, [0x3C]) == y
  {
    PassSkipsAfter([0x62], GtRef, LtRef, [0x3C], 1);
    assert [0x62] + [Ampersand] + GtRef[1..] == y;
  }

  /** The `&lt;` pass over `&lt;b&gt;` gives `<b&gt;`. */
  lemma TwoReferencesLt(s: Text)
    requires s == LtRef + [0x62] + GtRef
    ensures ReplaceAll(s, LtRef, [0x3C]) == [0x3C, 0x62] + GtRef
  {
    var y: Text := [0x62] + GtRef;
    assert s == LtRef + y;
    ReplaceAllHit(LtRef, [0x3C], y);
    TailKeptByLt(y);
  }

  /** The `&gt;` pass over `<b&gt;` gives `<b>`. */
  lemma TwoReferencesGt(u: Text)
    requires u == [0x3C, 0x62] + GtRef
    ensures ReplaceAll(u, GtRef, [0x3E]) == [0x3C, 0x62, 0x3E]
  {
    assert u == [0x3C, 0x62] + GtRef + [];
    ReplaceAllAfter([0x3C, 0x62], GtRef, [0x3E], []);
  }

  /** Two references in one text are both decoded: `&lt;b&gt;` gives `<b>`. */
  lemma DecodesTwoReferences(s: Text)
    requires s == LtRef + [0x62] + GtRef
    ensures Decoded(s) == [0x3C, 0x62, 0x3E]
  {
    DecodedWithoutNumberSign(s);
    TwoReferencesSkip(s, QuotRef, [0x22]);
    TwoReferencesSkip(s, AmpRef, [0x26]);
    TwoReferencesSkip(s, AposRef, [0x27]);
    TwoReferencesLt(s);
    TwoReferencesGt([0x3C, 0x62] + GtRef);
  }

  /** An `&` that begins no reference is kept, and a numeric reference
      after it is still decoded: `&x&#65;` gives `&xA`. */
  lemma KeepsBareAmpersand(s: Text, digits: Text)
    requires digits == [0x36, 0x35]
    requires s == [Ampersand, 0x78] + ([Ampersand, NumberSign] + digits + [Semicolon])
    ensures Decoded(s) == [Ampersand, 0x78, 0x41]
  {
    var y := [Ampersand, NumberSign] + digits + [Semicolon];
    forall i | 0 <= i < 2
      ensures NumericRefLength(([Ampersand, 0x78] + y)[i..]) == 0
    {
      assert i == 0 || i == 1;
    }
    NumericRefsNoRefPrefix([Ampersand, 0x78], y);
    PlainDigits(digits);
    NumericRefDecodes(y, digits, []);
    assert y + [] == y;
    var t := NumericRefs(s);
    assert t == [Ampersand, 0x78, 0x41];
    DecodedChain(s);
    PassSkips(t, QuotRef, [0x22], 1);
    PassSkips(t, AmpRef, [0x26], 1);
    PassSkips(t, AposRef, [0x27], 1);
    PassSkips(t, LtRef, [0x3C], 1);
    PassSkips(t, GtRef, [0x3E], 1);
  }
}
