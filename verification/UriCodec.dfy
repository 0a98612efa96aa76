/** The percent codecs of `HttpCollectionTmpl` and `Url`: two-pass encoder and decoder, and when they are inverse. */
module UriCodecs {
  import opened Results

  const PLUS: Byte := 0x2B
  const SPACE: Byte := 0x20
  const PERCENT: Byte := 0x25
  const BACKSLASH: Byte := 0x5C
  const UPPER_U: Byte := 0x55
  const LOWER_U: Byte := 0x75

  /** The tables of the repository; entry `k` belongs to byte `0x20 + k` and a space means "escape it". */
  const URI_TABLE: string :=
    " ! #$ &'()*+,-./" +
    "0123456789:; = ?" +
    "@ABCDEFGHIJKLMNO" +
    "PQRSTUVWXYZ    _" +
    " abcdefghijklmno" +
    "pqrstuvwxyz   ~ "
  const URI_COMPONENT_TABLE: string :=
    " !     '()*  -. " +
    "0123456789      " +
    " ABCDEFGHIJKLMNO" +
    "PQRSTUVWXYZ    _" +
    " abcdefghijklmno" +
    "pqrstuvwxyz   ~ "
  const COOKIE_TABLE: string :=
    " ! #$%&'()*+ -./" +
    "0123456789: <=>?" +
    "@ABCDEFGHIJKLMNO" +
    "PQRSTUVWXYZ[ ]^_" +
    "`abcdefghijklmno" +
    "pqrstuvwxyz{|}~ "

  /** `qisxdigit`: the upper-case range runs to 'Z', not to 'F'. */
  predicate IsXDigit(c: Byte) {
    0x30 <= c <= 0x39 || 0x61 <= c <= 0x66 || 0x41 <= c <= 0x5A
  }

  /** `qhex`: 0 for anything that is not a real hexadecimal digit. */
  function Hex(c: Byte): (v: int)
    ensures 0 <= v < 16
  {
    if 0x30 <= c <= 0x39 then c - 0x30
    else if 0x61 <= c <= 0x66 then c - 0x61 + 10
    else if 0x41 <= c <= 0x46 then c - 0x41 + 10
    else 0
  }

  /** `"0123456789ABCDEF"[v]`. */
  function HexDigit(v: int): (c: Byte)
    requires 0 <= v < 16
    ensures IsXDigit(c) && Hex(c) == v
  {
    if v < 10 then 0x30 + v else 0x41 + v - 10
  }

  // ---------------------------------------------------------------- encoding

  predicate IsTable(tab: string) {
    |tab| == 0x60
  }

  predicate Passes(tab: string, c: Byte)
    requires IsTable(tab)
  {
    0x20 <= c < 0x80 && tab[c - 0x20] != ' '
  }

  function EncodeByte(tab: string, space: bool, c: Byte): seq<Byte>
    requires IsTable(tab)
  {
    if space && c == SPACE then [PLUS]
    else if Passes(tab, c) then [c]
    else [PERCENT, HexDigit(c / 16), HexDigit(c % 16)]
  }

  function Encoded(tab: string, space: bool, s: seq<Byte>): seq<Byte>
    requires IsTable(tab)
  {
    if s == [] then [] else EncodeByte(tab, space, s[0]) + Encoded(tab, space, s[1..])
  }

  /** One unit written at `bstr` extends what is written and leaves as much as is still to come. */
  lemma Advance(whole: seq<Byte>, done: seq<Byte>, unit: seq<Byte>, rest: seq<Byte>)
    requires done + (unit + rest) == whole
    ensures (done + unit) + rest == whole && |done| + |unit| + |rest| == |whole|
  {
  }

  /** First pass of the encoder. */
  method EncodedSize(url: seq<Byte>, tab: string, space: bool) returns (len: nat)
    requires IsTable(tab)
    ensures len == |Encoded(tab, space, url)|
  {
    var src := 0;
    len := 0;
    while src < |url|
      invariant 0 <= src <= |url|
      invariant len + |Encoded(tab, space, url[src..])| == |Encoded(tab, space, url)|
    {
      var ch := url[src];
      assert url[src..][1..] == url[src + 1..];
      src := src + 1;
      if ch < 0x20 || ch >= 0x80 || tab[ch - 0x20] == ' ' {
        if space && ch == SPACE {
        } else {
          len := len + 2;
        }
      }
      len := len + 1;
    }
  }

  /** Second pass: one byte through `*bstr++`. */
  method WriteEncoded(ch: Byte, tab: string, space: bool, str: array<Byte>, bstr: nat) returns (next: nat)
    requires IsTable(tab) && bstr + |EncodeByte(tab, space, ch)| <= str.Length
    modifies str
    ensures next == bstr + |EncodeByte(tab, space, ch)|
    ensures str[..next] == old(str[..bstr]) + EncodeByte(tab, space, ch)
  {
    next := bstr;
    if ch >= 0x20 && ch < 0x80 && tab[ch - 0x20] != ' ' {
      if space && ch == SPACE {
        str[next] := PLUS;
      } else {
        str[next] := ch;
      }
      next := next + 1;
    } else if space && ch == SPACE {
      str[next] := PLUS;
      next := next + 1;
    } else {
      str[next] := PERCENT;
      str[next + 1] := HexDigit(ch / 16);
      str[next + 2] := HexDigit(ch % 16);
      next := next + 3;
    }
  }

  /** `Url::encodeURI`; `HttpCollectionTmpl::encodeURI` is the case `space == false`. */
  method EncodeURI(url: seq<Byte>, tab: string, space: bool) returns (retVal: seq<Byte>)
    requires IsTable(tab)
    ensures retVal == Encoded(tab, space, url)
  {
    if |url| == 0 {
      return [];
    }
    var len := EncodedSize(url, tab, space);
    var str := new Byte[len];
    ghost var whole := Encoded(tab, space, url);
    var src, bstr := 0, 0;
    while src < |url|
      invariant 0 <= src <= |url| && 0 <= bstr <= len
      invariant str[..bstr] + Encoded(tab, space, url[src..]) == whole
    {
      hide EncodeByte;
      assert url[src..][1..] == url[src + 1..];
      Advance(whole, str[..bstr], EncodeByte(tab, space, url[src]), Encoded(tab, space, url[src + 1..]));
      bstr := WriteEncoded(url[src], tab, space, str, bstr);
      src := src + 1;
    }
    assert str[..] == str[..bstr];
    return str[..];
  }

  // ---------------------------------------------------------------- decoding

  /** The UTF-8 bytes of one UTF-16 unit, a lone surrogate becoming U+FFFD. */
  function Utf8(wch: int): (b: seq<Byte>)
    requires 0 <= wch < 0x1_0000
    ensures 1 <= |b| <= 3
  {
    if wch < 0x80 then [wch]
    else if wch < 0x800 then [0xC0 + wch / 0x40, 0x80 + wch % 0x40]
    else if 0xD800 <= wch < 0xE000 then [0xEF, 0xBF, 0xBD]
    else [0xE0 + wch / 0x1000, 0x80 + wch / 0x40 % 0x40, 0x80 + wch % 0x40]
  }

  /** The UTF-16 unit of four digits. */
  function Wide(a: Byte, b: Byte, c: Byte, d: Byte): (wch: int)
    ensures 0 <= wch < 0x1_0000
  {
    Hex(a) * 0x1000 + Hex(b) * 0x100 + Hex(c) * 0x10 + Hex(d)
  }

  predicate TwoDigit(s: seq<Byte>)
  {
    |s| > 2 && s[0] == PERCENT && IsXDigit(s[1]) && IsXDigit(s[2])
  }

  predicate FourDigit(s: seq<Byte>) {
    |s| > 5 && (s[0] == PERCENT || s[0] == BACKSLASH) && (s[1] == LOWER_U || s[1] == UPPER_U)
    && IsXDigit(s[2]) && IsXDigit(s[3]) && IsXDigit(s[4]) && IsXDigit(s[5])
  }

  /** Source bytes taken by the unit at the head of a non-empty `s`. */
  function Taken(s: seq<Byte>): (n: nat)
    requires s != []
    ensures 1 <= n <= |s|
  {
    if TwoDigit(s) then 3 else if FourDigit(s) then 6 else 1
  }

  /** What that unit decodes to. */
  function Unit(s: seq<Byte>, space: bool): seq<Byte>
    requires s != []
  {
    if TwoDigit(s) then [Hex(s[1]) * 16 + Hex(s[2])]
    else if FourDigit(s) then Utf8(Wide(s[2], s[3], s[4], s[5]))
    else if space && s[0] == PLUS then [SPACE]
    else [s[0]]
  }

  function Decoded(s: seq<Byte>, space: bool): seq<Byte>
    decreases |s|
  {
    if s == [] then [] else Unit(s, space) + Decoded(s[Taken(s)..], space)
  }

  /** The test both passes repeat for `%XX`. */
  predicate TwoDigitAt(url: seq<Byte>, src: nat)
    requires src < |url|
    ensures TwoDigitAt(url, src) == TwoDigit(url[src..])
  {
    url[src] == PERCENT && |url| - src > 2 && IsXDigit(url[src + 1]) && IsXDigit(url[src + 2])
  }

  /** The test both passes repeat for `%uXXXX` and `\\uXXXX`. */
  predicate FourDigitAt(url: seq<Byte>, src: nat)
    requires src < |url|
    ensures FourDigitAt(url, src) == FourDigit(url[src..])
  {
    (url[src] == PERCENT || url[src] == BACKSLASH) && |url| - src > 5
    && (url[src + 1] == LOWER_U || url[src + 1] == UPPER_U) && IsXDigit(url[src + 2])
    && IsXDigit(url[src + 3]) && IsXDigit(url[src + 4]) && IsXDigit(url[src + 5])
  }

  lemma DecodeStep(url: seq<Byte>, src: nat, space: bool)
    requires src < |url|
    ensures src + Taken(url[src..]) <= |url|
    ensures Decoded(url[src..], space) == Unit(url[src..], space) + Decoded(url[src + Taken(url[src..])..], space)
  {
    assert url[src..][Taken(url[src..])..] == url[src + Taken(url[src..])..];
  }

  lemma DecodedNothing(s: seq<Byte>, space: bool)
    requires s == []
    ensures Decoded(s, space) == []
  {
  }

  /** First pass of the decoder. */
  method DecodedSize(url: seq<Byte>, space: bool) returns (len: nat)
    ensures len == |Decoded(url, space)|
  {
    var src := 0;
    len := 0;
    while src < |url|
      invariant 0 <= src <= |url|
      invariant len + |Decoded(url[src..], space)| == |Decoded(url, space)|
    {
      hide Decoded, Utf8, Wide, TwoDigit, FourDigit, TwoDigitAt, FourDigitAt;
      DecodeStep(url, src, space);
      if TwoDigitAt(url, src) {
        src := src + 2;
      } else if FourDigitAt(url, src) {
        len := len + |Utf8(Wide(url[src + 2], url[src + 3], url[src + 4], url[src + 5]))| - 1;
        src := src + 5;
      }
      src, len := src + 1, len + 1;
    }
  }

  /** Second pass: the unit at `src` through `bstr`. */
  method WriteDecoded(url: seq<Byte>, src: nat, space: bool, str: array<Byte>, bstr: nat) returns (next: nat, used: nat)
    requires src < |url| && bstr + |Unit(url[src..], space)| <= str.Length
    modifies str
    ensures used == Taken(url[src..]) && next == bstr + |Unit(url[src..], space)|
    ensures str[..next] == old(str[..bstr]) + Unit(url[src..], space)
  {
    hide Utf8, Wide, TwoDigit, FourDigit;
    if TwoDigitAt(url, src) {
      str[bstr] := Hex(url[src + 1]) * 16 + Hex(url[src + 2]);
      next, used := bstr + 1, 3;
    } else if FourDigitAt(url, src) {
      var utf := Utf8(Wide(url[src + 2], url[src + 3], url[src + 4], url[src + 5]));
      forall k | 0 <= k < |utf| {
        str[bstr + k] := utf[k];
      }
      next, used := bstr + |utf|, 6;
    } else if space && url[src] == PLUS {
      str[bstr] := SPACE;
      next, used := bstr + 1, 1;
    } else {
      str[bstr] := url[src];
      next, used := bstr + 1, 1;
    }
    assert str[..next] == old(str[..bstr]) + Unit(url[src..], space);
  }

  /** `decodeURI` of both classes. */
  method DecodeURI(url: seq<Byte>, space: bool) returns (retVal: seq<Byte>)
    ensures retVal == Decoded(url, space)
  {
    if |url| == 0 {
      return [];
    }
    hide Decoded, Unit, Taken;
    var len := DecodedSize(url, space);
    var str := new Byte[len];
    ghost var whole := Decoded(url, space);
    assert url[0..] == url;
    DecodedNothing(url[|url|..], space);
    var src, bstr := 0, 0;
    while src < |url|
      invariant 0 <= src <= |url| && 0 <= bstr <= len
      invariant str[..bstr] + Decoded(url[src..], space) == whole
    {
      ghost var here := url[src..];
      DecodeStep(url, src, space);
      Advance(whole, str[..bstr], Unit(here, space), Decoded(url[src + Taken(here)..], space));
      var used: nat;
      bstr, used := WriteDecoded(url, src, space, str, bstr);
      src := src + used;
    }
    assert str[..] == str[..bstr];
    return str[..];
  }

  // ---------------------------------------------------------------- round trip

  /** Some hexadecimal digit (in the sense of `qisxdigit`) is written unescaped. */
  predicate SomeDigitPasses(tab: string)
    requires IsTable(tab)
  {
    exists x: Byte :: IsXDigit(x) && Passes(tab, x)
  }

  /** No passed byte can be read as part of an escape that was not written. */
  predicate Unambiguous(tab: string)
    requires IsTable(tab)
  {
    && (Passes(tab, PERCENT) ==> !SomeDigitPasses(tab))
    && (Passes(tab, BACKSLASH) && (Passes(tab, LOWER_U) || Passes(tab, UPPER_U)) ==> !SomeDigitPasses(tab))
  }

  /** When a caller may rely on `decodeURI(.., back)` to undo `encodeURI(.., tab, space)`. */
  predicate Restores(tab: string, space: bool, back: bool)
    requires IsTable(tab)
  {
    Unambiguous(tab) && (back ==> !Passes(tab, PLUS)) && (space ==> back)
  }

  ghost predicate RoundTrips(tab: string, space: bool, back: bool)
    requires IsTable(tab)
  {
    forall s: seq<Byte> :: Decoded(Encoded(tab, space, s), back) == s
  }

  /** Encoded text starts with '%', with the '+' of a space, or with the passed byte itself. */
  lemma FirstByte(tab: string, space: bool, s: seq<Byte>)
    requires IsTable(tab) && s != []
    ensures Encoded(tab, space, s) != []
    ensures var c := Encoded(tab, space, s)[0];
            c == PERCENT || c == PLUS || (c == s[0] && Passes(tab, c)
            && Encoded(tab, space, s)[1..] == Encoded(tab, space, s[1..]))
  {
  }

  lemma NoDigitFirst(tab: string, space: bool, s: seq<Byte>)
    requires IsTable(tab) && !SomeDigitPasses(tab) && s != []
    ensures Encoded(tab, space, s) != [] && !IsXDigit(Encoded(tab, space, s)[0])
  {
    FirstByte(tab, space, s);
  }

  /** A passed byte is never taken for the start of an escape. */
  lemma PassedAlone(tab: string, space: bool, c: Byte, s: seq<Byte>)
    requires IsTable(tab) && Unambiguous(tab) && Passes(tab, c)
    ensures var t := [c] + Encoded(tab, space, s); !TwoDigit(t) && !FourDigit(t)
  {
    var e := Encoded(tab, space, s);
    var t := [c] + e;
    if s != [] && (c == PERCENT || c == BACKSLASH) {
      assert t[1] == e[0];
      if !SomeDigitPasses(tab) {
        NoDigitFirst(tab, space, s);
        if FourDigit(t) {
          FirstByte(tab, space, s);
          assert t[2] == e[1..][0];
          NoDigitFirst(tab, space, s[1..]);
        }
      } else {
        FirstByte(tab, space, s);
      }
    }
  }

  /** The decoder reads exactly the unit the encoder wrote for `c`. */
  lemma EncodedUnit(tab: string, space: bool, back: bool, c: Byte, s: seq<Byte>)
    requires IsTable(tab) && Unambiguous(tab)
    ensures var t := EncodeByte(tab, space, c) + Encoded(tab, space, s);
            && Taken(t) == |EncodeByte(tab, space, c)|
            && Unit(t, back) == if space && c == SPACE && !back then [PLUS]
                                else if back && c == PLUS && Passes(tab, c) then [SPACE]
                                else [c]
  {
    hide Unambiguous, Utf8, Wide;
    if space && c == SPACE {
    } else if Passes(tab, c) {
      PassedAlone(tab, space, c, s);
    } else {
      assert TwoDigit(EncodeByte(tab, space, c) + Encoded(tab, space, s));
    }
  }

  lemma {:induction false} RoundTrip(tab: string, space: bool, back: bool, s: seq<Byte>)
    requires IsTable(tab) && Restores(tab, space, back)
    ensures Decoded(Encoded(tab, space, s), back) == s
  {
    hide Unambiguous, Taken, Unit, EncodeByte;
    if s != [] {
      var unit, rest := EncodeByte(tab, space, s[0]), Encoded(tab, space, s[1..]);
      EncodedUnit(tab, space, back, s[0], s[1..]);
      assert (unit + rest)[|unit|..] == rest;
      RoundTrip(tab, space, back, s[1..]);
    }
  }

  /** Text that passes byte for byte. */
  lemma {:induction false} AllPass(tab: string, space: bool, s: seq<Byte>)
    requires IsTable(tab) && forall k :: 0 <= k < |s| ==> Passes(tab, s[k]) && s[k] != SPACE
    ensures Encoded(tab, space, s) == s
  {
    if s != [] {
      AllPass(tab, space, s[1..]);
    }
  }

  /** A passed `%xx`. */
  lemma PercentBreaks(tab: string, space: bool, back: bool, x: Byte)
    requires IsTable(tab) && Passes(tab, PERCENT) && IsXDigit(x) && Passes(tab, x)
    ensures !RoundTrips(tab, space, back)
  {
    var s: seq<Byte> := [PERCENT, x, x];
    AllPass(tab, space, s);
    assert Decoded(s, back) == Unit(s, back) + Decoded(s[3..], back);
    assert |Decoded(Encoded(tab, space, s), back)| == 1;
  }

  /** A passed `\\uxxxx`: six bytes become at most three. */
  lemma BackslashBreaks(tab: string, space: bool, back: bool, u: Byte, x: Byte)
    requires IsTable(tab) && Passes(tab, BACKSLASH) && (u == LOWER_U || u == UPPER_U) && Passes(tab, u)
    requires IsXDigit(x) && Passes(tab, x)
    ensures !RoundTrips(tab, space, back)
  {
    var s: seq<Byte> := [BACKSLASH, u, x, x, x, x];
    AllPass(tab, space, s);
    assert FourDigit(s) && Decoded(s, back) == Unit(s, back) + Decoded(s[6..], back);
    assert |Decoded(Encoded(tab, space, s), back)| <= 3;
  }

  /** A passed '+' read back as a space, or a space written as '+' and not read back. */
  lemma PlusBreaks(tab: string, space: bool, back: bool)
    requires IsTable(tab) && (if back then Passes(tab, PLUS) else space)
    ensures !RoundTrips(tab, space, back)
  {
    var s: seq<Byte> := [if back then PLUS else SPACE];
    var e: seq<Byte> := [PLUS];
    assert Encoded(tab, space, s) == e + Encoded(tab, space, []) == e;
    assert Decoded(e, back) == Unit(e, back) + Decoded([], back) == Unit(e, back);
    assert Unit(e, back) != s;
  }

  /** The round trip holds for every byte string exactly when `Restores` does. */
  lemma RoundTripIff(tab: string, space: bool, back: bool)
    requires IsTable(tab)
    ensures RoundTrips(tab, space, back) <==> Restores(tab, space, back)
  {
    if Restores(tab, space, back) {
      forall s: seq<Byte>
        ensures Decoded(Encoded(tab, space, s), back) == s
      {
        RoundTrip(tab, space, back, s);
      }
    } else if (space && !back) || (back && Passes(tab, PLUS)) {
      PlusBreaks(tab, space, back);
    } else {
      var x: Byte :| IsXDigit(x) && Passes(tab, x);
      if Passes(tab, PERCENT) {
        PercentBreaks(tab, space, back, x);
      } else {
        BackslashBreaks(tab, space, back, if Passes(tab, LOWER_U) then LOWER_U else UPPER_U, x);
      }
    }
  }

  lemma UriTable()
    ensures IsTable(URI_TABLE) && !Passes(URI_TABLE, PERCENT) && !Passes(URI_TABLE, BACKSLASH)
  {
  }

  lemma UriComponentTable()
    ensures IsTable(URI_COMPONENT_TABLE) && !Passes(URI_COMPONENT_TABLE, PERCENT)
    ensures !Passes(URI_COMPONENT_TABLE, BACKSLASH) && !Passes(URI_COMPONENT_TABLE, PLUS)
  {
  }

  lemma CookieTable()
    ensures IsTable(COOKIE_TABLE) && Passes(COOKIE_TABLE, PERCENT) && Passes(COOKIE_TABLE, 0x41)
  {
  }

  /** Of the shipped tables, the two of `encoding` round-trip in the mode used; the cookie table does not. */
  lemma ShippedTables()
    ensures IsTable(URI_TABLE) && RoundTrips(URI_TABLE, false, false)
    ensures IsTable(URI_COMPONENT_TABLE) && RoundTrips(URI_COMPONENT_TABLE, false, false)
    ensures RoundTrips(URI_COMPONENT_TABLE, true, true) && !RoundTrips(URI_COMPONENT_TABLE, true, false)
    ensures IsTable(COOKIE_TABLE) && !RoundTrips(COOKIE_TABLE, false, false)
  {
    hide *;
    UriTable();
    UriComponentTable();
    CookieTable();
    Escaped(URI_TABLE, false, false);
    Escaped(URI_COMPONENT_TABLE, false, false);
    Escaped(URI_COMPONENT_TABLE, true, true);
    Escaped(URI_COMPONENT_TABLE, true, false);
    ADigit();
    PercentBreaks(COOKIE_TABLE, false, false, 0x41);
  }

  lemma ADigit()
    ensures IsXDigit(0x41)
  {
  }

  /** The usual sufficient condition: '%' and '\\' are escaped. */
  lemma Escaped(tab: string, space: bool, back: bool)
    requires IsTable(tab) && !Passes(tab, PERCENT) && !Passes(tab, BACKSLASH)
    ensures RoundTrips(tab, space, back) <==> (back ==> !Passes(tab, PLUS)) && (space ==> back)
  {
    RoundTripIff(tab, space, back);
  }

  function SpacesToPlus(s: seq<Byte>): (r: seq<Byte>)
  {
    seq(|s|, k requires 0 <= k < |s| => if s[k] == SPACE then PLUS else s[k])
  }

  /** `querystring.unescape(querystring.escape(s))`: form encoding undone without the space mode. */
  lemma {:induction false} FormDecodedPlainly(tab: string, s: seq<Byte>)
    requires IsTable(tab) && Unambiguous(tab)
    ensures Decoded(Encoded(tab, true, s), false) == SpacesToPlus(s)
  {
    hide Unambiguous, Taken, Unit, EncodeByte;
    if s != [] {
      var unit, rest := EncodeByte(tab, true, s[0]), Encoded(tab, true, s[1..]);
      EncodedUnit(tab, true, false, s[0], s[1..]);
      assert (unit + rest)[|unit|..] == rest;
      FormDecodedPlainly(tab, s[1..]);
      assert SpacesToPlus(s) == [if s[0] == SPACE then PLUS else s[0]] + SpacesToPlus(s[1..]);
    }
  }

  // ---------------------------------------------------------------- one string

  predicate AllPassed(tab: string, s: seq<Byte>)
    requires IsTable(tab)
  {
    forall k :: 0 <= k < |s| ==> Passes(tab, s[k])
  }

  /** `s` begins with text that is written as it stands and reads as an escape. */
  predicate LooksEscaped(tab: string, s: seq<Byte>)
    requires IsTable(tab)
  {
    (TwoDigit(s) && AllPassed(tab, s[..3])) || (FourDigit(s) && AllPassed(tab, s[..6]))
  }

  /** The byte is written so that it is read as another one. */
  predicate Altered(tab: string, space: bool, back: bool, c: Byte)
    requires IsTable(tab)
  {
    (c == PLUS && back && Passes(tab, c)) || (c == SPACE && space && !back)
  }

  ghost predicate Survives(tab: string, space: bool, back: bool, s: seq<Byte>)
    requires IsTable(tab)
  {
    forall i :: 0 <= i < |s| ==> !LooksEscaped(tab, s[i..]) && !Altered(tab, space, back, s[i])
  }

  lemma SurvivesStep(tab: string, space: bool, back: bool, s: seq<Byte>)
    requires IsTable(tab) && s != []
    ensures Survives(tab, space, back, s)
       <==> !LooksEscaped(tab, s) && !Altered(tab, space, back, s[0]) && Survives(tab, space, back, s[1..])
  {
    assert s[0..] == s;
    assert forall i :: 0 <= i < |s| - 1 ==> s[1..][i..] == s[i + 1..];
    if Survives(tab, space, back, s) {
      forall i | 0 <= i < |s| - 1
        ensures !LooksEscaped(tab, s[1..][i..]) && !Altered(tab, space, back, s[1..][i])
      {
        assert s[1..][i..] == s[i + 1..];
      }
    }
    if !LooksEscaped(tab, s) && !Altered(tab, space, back, s[0]) && Survives(tab, space, back, s[1..]) {
      forall i | 0 <= i < |s|
        ensures !LooksEscaped(tab, s[i..]) && !Altered(tab, space, back, s[i])
      {
        if i > 0 {
          assert s[1..][i - 1..] == s[i..];
        }
      }
    }
  }

  lemma HeadAndTail(p: seq<Byte>, t: seq<Byte>)
    requires p != []
    ensures p + t != [] && (p + t)[0] == p[0] && (p + t)[1..] == p[1..] + t && p + t == [p[0]] + (p[1..] + t)
  {
  }

  lemma PassedOne(tab: string, space: bool, p: seq<Byte>, s: seq<Byte>)
    requires IsTable(tab) && p != [] && s != [] && s[0] == p[0] && Passes(tab, p[0]) && p[0] != SPACE
    ensures Encoded(tab, space, s) == [s[0]] + Encoded(tab, space, s[1..])
  {
  }

  /** Bytes that pass are written as they stand. */
  lemma {:induction false} PassedPrefix(tab: string, space: bool, p: seq<Byte>, t: seq<Byte>)
    requires IsTable(tab) && AllPassed(tab, p) && SPACE !in p
    ensures Encoded(tab, space, p + t) == p + Encoded(tab, space, t)
  {
    if p == [] {
      assert p + t == t;
    } else {
      PassedOne(tab, space, p, p + t);
      HeadAndTail(p, t);
      HeadAndTail(p, Encoded(tab, space, t));
      assert AllPassed(tab, p[1..]) && SPACE !in p[1..];
      hide Encoded, Passes, AllPassed;
      PassedPrefix(tab, space, p[1..], t);
    }
  }

  /** What is read back other than '%' and '+' was passed. */
  lemma {:induction false} PlainPrefix(tab: string, space: bool, s: seq<Byte>, n: nat)
    requires IsTable(tab) && n <= |Encoded(tab, space, s)|
    requires forall k :: 0 <= k < n ==> Encoded(tab, space, s)[k] != PERCENT && Encoded(tab, space, s)[k] != PLUS
    ensures n <= |s| && Encoded(tab, space, s)[..n] == s[..n] && AllPassed(tab, s[..n])
  {
    if n > 0 {
      PlainFirst(tab, space, s);
      var e, e1 := Encoded(tab, space, s), Encoded(tab, space, s[1..]);
      hide Encoded, Passes, AllPassed;
      assert forall k :: 0 <= k < n - 1 ==> e1[k] == e[k + 1];
      PlainPrefix(tab, space, s[1..], n - 1);
      assert e[..n] == [e[0]] + e1[..n - 1];
      assert s[..n] == [s[0]] + s[1..][..n - 1];
      AllPassedMore(tab, s[0], s[1..][..n - 1]);
    }
  }

  lemma PlainFirst(tab: string, space: bool, s: seq<Byte>)
    requires IsTable(tab) && Encoded(tab, space, s) != []
    requires Encoded(tab, space, s)[0] != PERCENT && Encoded(tab, space, s)[0] != PLUS
    ensures s != [] && Encoded(tab, space, s) == [s[0]] + Encoded(tab, space, s[1..]) && Passes(tab, s[0])
  {
    EncodedNothing(tab, space, s);
    FirstByte(tab, space, s);
  }

  lemma AllPassedMore(tab: string, c: Byte, s: seq<Byte>)
    requires IsTable(tab) && Passes(tab, c) && AllPassed(tab, s)
    ensures AllPassed(tab, [c] + s)
  {
  }

  lemma EncodedNothing(tab: string, space: bool, s: seq<Byte>)
    requires IsTable(tab)
    ensures Encoded(tab, space, s) != [] ==> s != []
  {
  }

  /** The encoding reads as an escape at its head exactly when the text looked like one there. */
  lemma EscapeSeen(tab: string, space: bool, s: seq<Byte>)
    requires IsTable(tab) && s != [] && Passes(tab, s[0]) && s[0] != SPACE
    ensures var e := Encoded(tab, space, s);
            && (TwoDigit(e) <==> TwoDigit(s) && AllPassed(tab, s[..3]))
            && (FourDigit(e) <==> FourDigit(s) && AllPassed(tab, s[..6]))
            && e == [s[0]] + Encoded(tab, space, s[1..])
  {
    TwoSeen(tab, space, s);
    FourSeen(tab, space, s);
  }

  lemma TwoSeen(tab: string, space: bool, s: seq<Byte>)
    requires IsTable(tab) && s != [] && Passes(tab, s[0]) && s[0] != SPACE
    ensures TwoDigit(Encoded(tab, space, s)) <==> TwoDigit(s) && AllPassed(tab, s[..3])
  {
    hide Passes, AllPassed, Encoded;
    var e := Encoded(tab, space, s);
    if TwoDigit(e) {
      HeadPassed(tab, space, s, 2);
      assert forall k :: 0 <= k < 3 ==> e[..3][k] == s[..3][k];
      assert forall k :: 0 <= k < 3 ==> e[..3][k] == e[k] && s[..3][k] == s[k];
    }
    if TwoDigit(s) && AllPassed(tab, s[..3]) {
      PassedPrefix(tab, space, s[..3], s[3..]);
      assert s == s[..3] + s[3..] && e == s[..3] + Encoded(tab, space, s[3..]);
    }
  }

  lemma FourSeen(tab: string, space: bool, s: seq<Byte>)
    requires IsTable(tab) && s != [] && Passes(tab, s[0]) && s[0] != SPACE
    ensures FourDigit(Encoded(tab, space, s)) <==> FourDigit(s) && AllPassed(tab, s[..6])
  {
    hide Passes, AllPassed, Encoded;
    var e := Encoded(tab, space, s);
    if FourDigit(e) {
      HeadPassed(tab, space, s, 5);
      assert forall k :: 0 <= k < 6 ==> e[..6][k] == s[..6][k];
      assert forall k :: 0 <= k < 6 ==> e[..6][k] == e[k] && s[..6][k] == s[k];
    }
    if FourDigit(s) && AllPassed(tab, s[..6]) {
      PassedPrefix(tab, space, s[..6], s[6..]);
      assert s == s[..6] + s[6..] && e == s[..6] + Encoded(tab, space, s[6..]);
    }
  }

  lemma HeadPassed(tab: string, space: bool, s: seq<Byte>, n: nat)
    requires IsTable(tab) && s != [] && Passes(tab, s[0]) && s[0] != SPACE && n < |Encoded(tab, space, s)|
    requires forall k :: 1 <= k <= n ==> Encoded(tab, space, s)[k] != PERCENT && Encoded(tab, space, s)[k] != PLUS
    ensures n < |s| && Encoded(tab, space, s)[..n + 1] == s[..n + 1] && AllPassed(tab, s[..n + 1])
  {
    var e, e1 := Encoded(tab, space, s), Encoded(tab, space, s[1..]);
    assert e == [s[0]] + e1 && forall k :: 0 <= k < n ==> e1[k] == e[k + 1];
    PlainPrefix(tab, space, s[1..], n);
    assert s[..n + 1] == [s[0]] + s[1..][..n] && e[..n + 1] == [e[0]] + e1[..n];
  }

  /** The first unit of the encoding: an escape the text looked like, or one byte for one byte. */
  lemma FirstUnit(tab: string, space: bool, back: bool, s: seq<Byte>) returns (n: nat)
    requires IsTable(tab) && s != []
    ensures 1 <= n <= |s| && (n == 1 <==> !LooksEscaped(tab, s))
    ensures var e := Encoded(tab, space, s);
            && e != [] && e[Taken(e)..] == Encoded(tab, space, s[n..])
            && (n > 1 ==> |Unit(e, back)| < n)
            && (n == 1 ==> |Unit(e, back)| == 1)
            && (n == 1 ==> (Unit(e, back) == [s[0]] <==> !Altered(tab, space, back, s[0])))
  {
    var e := Encoded(tab, space, s);
    n := 1;
    if Passes(tab, s[0]) && s[0] != SPACE {
      EscapeSeen(tab, space, s);
      if LooksEscaped(tab, s) {
        n := if TwoDigit(s) && AllPassed(tab, s[..3]) then 3 else 6;
        PassedPrefix(tab, space, s[..n], s[n..]);
        assert s == s[..n] + s[n..];
      }
    } else {
      NotLooking(tab, s);
      PlainUnit(tab, space, back, s);
    }
  }

  lemma NotLooking(tab: string, s: seq<Byte>)
    requires IsTable(tab) && s != [] && (!Passes(tab, s[0]) || s[0] == SPACE)
    ensures !LooksEscaped(tab, s)
  {
    assert |s| > 2 ==> s[..3][0] == s[0];
    assert |s| > 5 ==> s[..6][0] == s[0];
  }

  lemma PlainUnit(tab: string, space: bool, back: bool, s: seq<Byte>)
    requires IsTable(tab) && s != [] && (!Passes(tab, s[0]) || s[0] == SPACE)
    ensures var e := Encoded(tab, space, s);
            && e != [] && e[Taken(e)..] == Encoded(tab, space, s[1..]) && |Unit(e, back)| == 1
            && (Unit(e, back) == [s[0]] <==> !Altered(tab, space, back, s[0]))
  {
    var e, unit, rest := Encoded(tab, space, s), EncodeByte(tab, space, s[0]), Encoded(tab, space, s[1..]);
    assert e == unit + rest;
    if |unit| == 3 {
      assert TwoDigit(e);
    }
  }

  /** For any table and modes, decoding gives back a string exactly when nowhere in it passed text looks like an escape,
      and no byte is altered. */
  lemma {:induction false} RoundTripExactly(tab: string, space: bool, back: bool, s: seq<Byte>)
    requires IsTable(tab)
    ensures Decoded(Encoded(tab, space, s), back) == s <==> Survives(tab, space, back, s)
    ensures |Decoded(Encoded(tab, space, s), back)| <= |s|
    decreases |s|
  {
    hide LooksEscaped, Altered, Unit, Taken, EncodeByte, Survives, Encoded;
    if s == [] {
      NothingSurvives(tab, space, back);
    } else {
      var n := FirstUnit(tab, space, back, s);
      var e := Encoded(tab, space, s);
      var unit, rest := Unit(e, back), Decoded(e[Taken(e)..], back);
      RoundTripExactly(tab, space, back, s[n..]);
      SurvivesStep(tab, space, back, s);
      assert Decoded(e, back) == unit + rest;
      if n == 1 {
        assert s == [s[0]] + s[1..];
        assert unit + rest == s ==> unit == s[..1] && rest == s[1..] by {
          assert (unit + rest)[..1] == unit && (unit + rest)[1..] == rest;
        }
      }
    }
  }

  lemma NothingSurvives(tab: string, space: bool, back: bool)
    requires IsTable(tab)
    ensures Encoded(tab, space, []) == [] && Decoded([], back) == [] && Survives(tab, space, back, [])
  {
  }

  lemma CookieDigits(x: Byte)
    requires IsXDigit(x)
    ensures IsTable(COOKIE_TABLE) && Passes(COOKIE_TABLE, x)
  {
    var digits, capitals, more, small := "0123456789: <=>?", "@ABCDEFGHIJKLMNO", "PQRSTUVWXYZ[ ]^_", "`abcdefghijklmno";
    if x <= 0x39 {
      assert COOKIE_TABLE[x - 0x20] == digits[x - 0x30];
    } else if x <= 0x4F {
      assert COOKIE_TABLE[x - 0x20] == capitals[x - 0x40];
    } else if x <= 0x5A {
      assert COOKIE_TABLE[x - 0x20] == more[x - 0x50];
    } else {
      assert COOKIE_TABLE[x - 0x20] == small[x - 0x60];
    }
  }

  lemma CookieOthers()
    ensures IsTable(COOKIE_TABLE) && !Passes(COOKIE_TABLE, BACKSLASH) && Passes(COOKIE_TABLE, PERCENT)
    ensures Passes(COOKIE_TABLE, LOWER_U)
  {
  }

  /** Text that reads as an escape in a table that passes '%', the digits and "u" but not the backslash. */
  predicate PercentEscape(s: seq<Byte>) {
    TwoDigit(s) || (FourDigit(s) && s[0] == PERCENT)
  }

  /** Such a table, as that of cookie values, gives back exactly the strings in which no '%' starts an escape. */
  lemma PercentSurvives(tab: string, s: seq<Byte>)
    requires IsTable(tab) && !Passes(tab, BACKSLASH) && Passes(tab, PERCENT) && Passes(tab, LOWER_U)
    requires forall x: Byte :: IsXDigit(x) ==> Passes(tab, x)
    ensures Decoded(Encoded(tab, false, s), false) == s <==> forall i :: 0 <= i < |s| ==> !PercentEscape(s[i..])
  {
    RoundTripExactly(tab, false, false, s);
    forall i | 0 <= i < |s|
      ensures LooksEscaped(tab, s[i..]) <==> PercentEscape(s[i..])
    {
      PercentLooks(tab, s[i..]);
    }
  }

  lemma PercentLooks(tab: string, s: seq<Byte>)
    requires IsTable(tab) && !Passes(tab, BACKSLASH) && Passes(tab, PERCENT) && Passes(tab, LOWER_U)
    requires forall x: Byte :: IsXDigit(x) ==> Passes(tab, x)
    ensures LooksEscaped(tab, s) <==> PercentEscape(s)
  {
    if FourDigit(s) {
      assert s[..6][0] == s[0];
      assert AllPassed(tab, s[..6]) <==> s[0] == PERCENT;
    }
  }

  lemma CookieSurvives(s: seq<Byte>)
    ensures IsTable(COOKIE_TABLE)
    ensures Decoded(Encoded(COOKIE_TABLE, false, s), false) == s <==> forall i :: 0 <= i < |s| ==> !PercentEscape(s[i..])
  {
    hide *;
    CookieOthers();
    forall x: Byte | IsXDigit(x)
      ensures Passes(COOKIE_TABLE, x)
    {
      CookieDigits(x);
    }
    PercentSurvives(COOKIE_TABLE, s);
  }

  // ---------------------------------------------------------------- digits, UTF-8 and text as others spell it

  const LOWER_DIGITS: string := "0123456789abcdef"
  const UPPER_DIGITS: string := "0123456789ABCDEF"

  /** The value of a byte as a hexadecimal digit in either case, by its place among the digits. */
  predicate DigitIs(c: Byte, v: int) {
    0 <= v < 16 && (c == LOWER_DIGITS[v] as int || c == UPPER_DIGITS[v] as int)
  }

  /** Every digit has its value, and nothing else has one but 'G' to 'Z', which count as 0. */
  lemma HexDigits(c: Byte, v: int)
    ensures DigitIs(c, v) ==> IsXDigit(c) && Hex(c) == v
    ensures IsXDigit(c) && !DigitIs(c, Hex(c)) <==> 0x47 <= c <= 0x5A
    ensures 0x47 <= c <= 0x5A ==> Hex(c) == 0
  {
  }

  /** Reading a UTF-8 sequence of one to three bytes, in its shortest form only (section 3 of RFC 3629). */
  function FromUtf8(b: seq<Byte>): (wch: Option<int>) {
    if |b| == 1 && b[0] < 0x80 then Some(b[0])
    else if |b| == 2 && 0xC2 <= b[0] < 0xE0 && Continues(b[1]) then
      var wch := Above(b[0], 0xC0) * 0x40 + Above(b[1], 0x80);
      Some(wch)
    else if |b| == 3 && 0xE0 <= b[0] < 0xF0 && Continues(b[1]) && Continues(b[2]) then
      var wch := Above(b[0], 0xE0) * 0x1000 + Above(b[1], 0x80) * 0x40 + Above(b[2], 0x80);
      if wch >= 0x800 && !(0xD800 <= wch < 0xE000) then Some(wch) else None
    else None
  }

  predicate Continues(c: Byte) { 0x80 <= c < 0xC0 }

  function Above(c: int, base: int): int { c - base }

  /** The bytes written for a unit are the UTF-8 of that unit, or of U+FFFD for a surrogate. */
  lemma Utf8IsUtf8(wch: int)
    requires 0 <= wch < 0x1_0000
    ensures FromUtf8(Utf8(wch)) == Some(if 0xD800 <= wch < 0xE000 then 0xFFFD else wch)
  {
    assert wch / 0x40 == wch / 0x1000 * 0x40 + wch / 0x40 % 0x40;
  }

  /** One unit of an escaped text: a byte as it is, %XX, or %uXXXX, \\uXXXX or \\UXXXX with the values of its digits. */
  datatype Spelling =
    | Literal(c: Byte)
    | Percent(hi: Byte, lo: Byte, h: int, l: int)
    | Unicode(mark: Byte, u: Byte, digits: seq<Byte>, values: seq<int>)

  predicate Spelled(p: Spelling) {
    match p
    case Literal(c) => c != PERCENT && c != BACKSLASH
    case Percent(hi, lo, h, l) => DigitIs(hi, h) && DigitIs(lo, l)
    case Unicode(mark, u, digits, values) =>
      && ((mark == PERCENT && u == LOWER_U) || (mark == BACKSLASH && (u == LOWER_U || u == UPPER_U)))
      && |digits| == |values| == 4 && (forall i :: 0 <= i < 4 ==> DigitIs(digits[i], values[i]))
  }

  function Spell(p: Spelling): seq<Byte> {
    match p
    case Literal(c) => [c]
    case Percent(hi, lo, _, _) => [PERCENT, hi, lo]
    case Unicode(mark, u, digits, _) => [mark, u] + digits
  }

  /** What the unit means, told without the decoder. */
  ghost predicate Means(p: Spelling, space: bool, b: seq<Byte>) {
    match p
    case Literal(c) => b == [if space && c == PLUS then SPACE else c]
    case Percent(_, _, h, l) => b == [h * 16 + l]
    case Unicode(_, _, _, v) =>
      |v| == 4 &&
      var wch := v[0] * 0x1000 + v[1] * 0x100 + v[2] * 0x10 + v[3];
      FromUtf8(b) == Some(if 0xD800 <= wch < 0xE000 then 0xFFFD else wch)
  }

  function SpellAll(ps: seq<Spelling>): seq<Byte> {
    if ps == [] then [] else Spell(ps[0]) + SpellAll(ps[1..])
  }

  function Flat(bs: seq<seq<Byte>>): seq<Byte> {
    if bs == [] then [] else bs[0] + Flat(bs[1..])
  }

  lemma SpelledUnit(p: Spelling, t: seq<Byte>, space: bool)
    requires Spelled(p)
    ensures Spell(p) + t != [] && Taken(Spell(p) + t) == |Spell(p)| && Means(p, space, Unit(Spell(p) + t, space))
  {
    match p
    case Literal(_) =>
    case Percent(hi, lo, h, l) =>
      HexDigits(hi, h);
      HexDigits(lo, l);
    case Unicode(_, _, _, _) => UnicodeUnit(p, t, space);
  }

  lemma UnicodeUnit(p: Spelling, t: seq<Byte>, space: bool)
    requires p.Unicode? && Spelled(p)
    ensures Spell(p) + t != [] && Taken(Spell(p) + t) == |Spell(p)| && Means(p, space, Unit(Spell(p) + t, space))
  {
    hide Utf8, FromUtf8, Hex, DigitIs, IsXDigit;
    var s, d, v := Spell(p) + t, p.digits, p.values;
    assert s[0] == p.mark && s[1] == p.u && s[2] == d[0] && s[3] == d[1] && s[4] == d[2] && s[5] == d[3];
    HexDigits(d[0], v[0]);
    HexDigits(d[1], v[1]);
    HexDigits(d[2], v[2]);
    HexDigits(d[3], v[3]);
    assert !IsXDigit(LOWER_U) by { NotADigit(); }
    Utf8IsUtf8(Wide(d[0], d[1], d[2], d[3]));
  }

  lemma NotADigit()
    ensures !IsXDigit(LOWER_U) && IsXDigit(UPPER_U) && Hex(UPPER_U) == 0
  {
  }

  /** %UXXXX is not read so: 'U' counts as a digit, and the first digit behind it alone is taken. */
  lemma PercentUpperU(d: seq<Byte>, v: int, t: seq<Byte>, space: bool)
    requires d != [] && DigitIs(d[0], v)
    ensures Decoded([PERCENT, UPPER_U] + d + t, space) == [v] + Decoded(d[1..] + t, space)
  {
    var s := [PERCENT, UPPER_U] + d + t;
    HexDigits(d[0], v);
    NotADigit();
    assert TwoDigit(s) && s[3..] == d[1..] + t;
  }

  /** Any text of such units, however its digits are cased, is decoded to what the units mean, in order. */
  lemma {:induction false} DecodedSpelled(ps: seq<Spelling>, space: bool) returns (bs: seq<seq<Byte>>)
    requires forall i :: 0 <= i < |ps| ==> Spelled(ps[i])
    ensures |bs| == |ps| && forall i :: 0 <= i < |ps| ==> Means(ps[i], space, bs[i])
    ensures Decoded(SpellAll(ps), space) == Flat(bs)
    decreases |ps|
  {
    hide Spelled, Means, Unit, Taken, Spell;
    if ps == [] {
      bs := [];
    } else {
      var t := SpellAll(ps[1..]);
      SpelledUnit(ps[0], t, space);
      var rest := DecodedSpelled(ps[1..], space);
      bs := [Unit(Spell(ps[0]) + t, space)] + rest;
      assert bs[1..] == rest && (Spell(ps[0]) + t)[|Spell(ps[0])|..] == t;
    }
  }
}
