/** `HttpCollectionTmpl::parse`: reading a '&'/'='-joined list of encoded pairs. */
module QueryParsing {
  import opened Results
  import opened UriCodecs

  const AMP: Byte := 0x26
  const EQ: Byte := 0x3D

  datatype Pair = Pair(key: seq<Byte>, value: seq<Byte>)

  /** What is in the collection when `parse` returns, and whether it returned an error. */
  datatype Outcome = Outcome(failed: bool, entries: seq<Pair>)

  // ---------------------------------------------------------------- specification

  /** First position where a separator or an equals sign starts. */
  function KeyEnd(s: seq<Byte>, sep: seq<Byte>, eq: seq<Byte>): (k: nat)
    ensures k <= |s|
    ensures k < |s| ==> sep <= s[k..] || eq <= s[k..]
  {
    if s == [] || sep <= s || eq <= s then 0 else
      var k := KeyEnd(s[1..], sep, eq);
      assert s[1..][k..] == s[k + 1..];
      k + 1
  }

  function ValueEnd(s: seq<Byte>, sep: seq<Byte>): (k: nat)
    ensures k <= |s|
    ensures k < |s| ==> sep <= s[k..]
  {
    if s == [] || sep <= s then 0 else
      var k := ValueEnd(s[1..], sep);
      assert s[1..][k..] == s[k + 1..];
      k + 1
  }

  lemma KeyEndAt(s: seq<Byte>, at: nat, sep: seq<Byte>, eq: seq<Byte>)
    requires at <= |s|
    ensures KeyEnd(s[at..], sep, eq)
         == if at == |s| || sep <= s[at..] || eq <= s[at..] then 0 else KeyEnd(s[at + 1..], sep, eq) + 1
  {
    if at < |s| {
      assert s[at..][1..] == s[at + 1..];
    }
  }

  lemma ValueEndAt(s: seq<Byte>, at: nat, sep: seq<Byte>)
    requires at <= |s|
    ensures ValueEnd(s[at..], sep) == if at == |s| || sep <= s[at..] then 0 else ValueEnd(s[at + 1..], sep) + 1
  {
    if at < |s| {
      assert s[at..][1..] == s[at + 1..];
    }
  }

  /** Text behind the key: the equals sign, when one ended it, is dropped. */
  function BehindKey(s: seq<Byte>, sep: seq<Byte>, eq: seq<Byte>): (r: seq<Byte>)
    ensures |r| <= |s|
  {
    var k := KeyEnd(s, sep, eq);
    if k < |s| && !(sep <= s[k..]) then s[k + |eq|..] else s[k..]
  }

  /** Text behind the value: the separator, when there is one, is dropped. */
  function BehindValue(s: seq<Byte>, sep: seq<Byte>): (r: seq<Byte>)
    ensures |r| <= |s|
  {
    var k := ValueEnd(s, sep);
    if k < |s| then s[k + |sep|..] else []
  }

  function FirstPair(s: seq<Byte>, sep: seq<Byte>, eq: seq<Byte>): Pair {
    var r := BehindKey(s, sep, eq);
    Pair(Decoded(s[..KeyEnd(s, sep, eq)], true), Decoded(r[..ValueEnd(r, sep)], true))
  }

  lemma Shrinks(s: seq<Byte>, sep: seq<Byte>, eq: seq<Byte>)
    requires s != [] && sep != []
    ensures |BehindValue(BehindKey(s, sep, eq), sep)| < |s|
  {
    var k := KeyEnd(s, sep, eq);
    var r := BehindKey(s, sep, eq);
    if |r| == |s| {
      assert s[k..] == s;
    }
  }

  /** The pairs of a text: an empty segment is skipped, an empty name is kept. */
  function Parsed(s: seq<Byte>, sep: seq<Byte>, eq: seq<Byte>): seq<Pair>
    requires sep != []
    decreases |s|
  {
    if s == [] then [] else
      Shrinks(s, sep, eq);
      var rest := Parsed(BehindValue(BehindKey(s, sep, eq), sep), sep, eq);
      if sep <= s then rest else [FirstPair(s, sep, eq)] + rest
  }

  lemma ParsedStep(s: seq<Byte>, sep: seq<Byte>, eq: seq<Byte>)
    requires s != [] && sep != []
    ensures Parsed(s, sep, eq)
         == (if sep <= s then [] else [FirstPair(s, sep, eq)])
            + Parsed(BehindValue(BehindKey(s, sep, eq), sep), sep, eq)
  {
    hide KeyEnd, ValueEnd, BehindKey, BehindValue, FirstPair, Decoded;
    Shrinks(s, sep, eq);
  }

  function LowerCase(s: seq<Byte>): (r: seq<Byte>)
  {
    seq(|s|, k requires 0 <= k < |s| => if 0x41 <= s[k] <= 0x5A then s[k] + 0x20 else s[k])
  }

  function Kept(p: Pair, lower: bool): Pair {
    if lower then Pair(LowerCase(p.key), p.value) else p
  }

  /** The pairs handed to `append` one by one: an empty name may end the list with an error. */
  function Stored(pairs: seq<Pair>, allowEmpty: bool, lower: bool): Outcome
    decreases |pairs|
  {
    if pairs == [] then Outcome(false, [])
    else if pairs[0].key == [] && !allowEmpty then Outcome(true, [])
    else
      var rest := Stored(pairs[1..], allowEmpty, lower);
      Outcome(rest.failed, [Kept(pairs[0], lower)] + rest.entries)
  }

  function Behind(done: seq<Pair>, rest: Outcome): Outcome {
    Outcome(rest.failed, done + rest.entries)
  }

  function AndThen(first: Outcome, rest: Outcome): Outcome {
    if first.failed then first else Behind(first.entries, rest)
  }

  /** One pair more, either appended or ending the list. */
  lemma StoredStep(done: seq<Pair>, p: Pair, rest: seq<Pair>, allowEmpty: bool, lower: bool)
    ensures Behind(done, Stored([p] + rest, allowEmpty, lower))
         == AndThen(Behind(done, Stored([p], allowEmpty, lower)), Stored(rest, allowEmpty, lower))
  {
    hide Kept;
    StoredOne(p, allowEmpty, lower);
    assert ([p] + rest)[1..] == rest && ([p] + rest)[0] == p;
    var tail := Stored(rest, allowEmpty, lower).entries;
    assert done + ([Kept(p, lower)] + tail) == done + [Kept(p, lower)] + tail;
  }

  lemma StoredOne(p: Pair, allowEmpty: bool, lower: bool)
    ensures Stored([p], allowEmpty, lower)
         == if p.key == [] && !allowEmpty then Outcome(true, []) else Outcome(false, [Kept(p, lower)])
  {
    assert [p][1..] == [];
  }

  // ---------------------------------------------------------------- the collection

  class HttpCollection {
    var entries: seq<Pair>
    const allowEmptyName: bool
    const lowercaseKeys: bool

    constructor (allowEmptyName: bool, lowercaseKeys: bool)
      ensures entries == [] && this.allowEmptyName == allowEmptyName && this.lowercaseKeys == lowercaseKeys
    {
      this.allowEmptyName := allowEmptyName;
      this.lowercaseKeys := lowercaseKeys;
      entries := [];
    }

    method Append(name: seq<Byte>, value: seq<Byte>) returns (failed: bool)
      modifies this
      ensures Outcome(failed, entries)
           == Behind(old(entries), Stored([Pair(name, value)], allowEmptyName, lowercaseKeys))
      ensures failed <==> name == [] && !allowEmptyName
      ensures !failed ==> entries == old(entries) + [Pair(if lowercaseKeys then LowerCase(name) else name, value)]
    {
      if name == [] && !allowEmptyName {
        return true;
      }
      entries := entries + [Pair(if lowercaseKeys then LowerCase(name) else name, value)];
      failed := false;
    }

    method Parse(str: seq<Byte>, sep: seq<Byte>, eq: seq<Byte>) returns (failed: bool)
      requires sep != []
      modifies this
      ensures Outcome(failed, entries)
           == Behind(old(entries), Stored(Parsed(str, sep, eq), allowEmptyName, lowercaseKeys))
    {
      ghost var whole := Behind(entries, Stored(Parsed(str, sep, eq), allowEmptyName, lowercaseKeys));
      var pstr := 0;
      while pstr < |str|
        invariant pstr <= |str|
        invariant whole == Behind(entries, Stored(Parsed(str[pstr..], sep, eq), allowEmptyName, lowercaseKeys))
      {
        ghost var here := str[pstr..];
        hide Parsed, Stored, Decoded, KeyEnd, ValueEnd, BehindKey, BehindValue;
        Shrinks(here, sep, eq);
        ParsedStep(here, sep, eq);
        var hasSegment := !(sep <= str[pstr..]);
        var strKey: seq<Byte>;
        strKey, pstr := ReadKey(str, pstr, sep, eq);
        var strValue: seq<Byte>;
        strValue, pstr := ReadValue(str, pstr, sep);
        if hasSegment {
          StoredStep(entries, FirstPair(here, sep, eq), Parsed(str[pstr..], sep, eq), allowEmptyName, lowercaseKeys);
          failed := Append(strKey, strValue);
          if failed {
            return;
          }
        }
      }
      failed := false;
    }

    /** The key loop of one segment and the step over the equals sign. */
    static method ReadKey(str: seq<Byte>, from: nat, sep: seq<Byte>, eq: seq<Byte>) returns (strKey: seq<Byte>, pstr: nat)
      requires from < |str|
      ensures strKey == Decoded(str[from..][..KeyEnd(str[from..], sep, eq)], true)
      ensures pstr <= |str| && str[pstr..] == BehindKey(str[from..], sep, eq)
    {
      hide KeyEnd, Decoded;
      ghost var here := str[from..];
      var foundEq := false;
      pstr := from;
      while pstr < |str|
        invariant from <= pstr <= |str| && !foundEq
        invariant pstr + KeyEnd(str[pstr..], sep, eq) == from + KeyEnd(here, sep, eq)
      {
        KeyEndAt(str, pstr, sep, eq);
        if sep <= str[pstr..] {
          break;
        }
        if eq <= str[pstr..] {
          foundEq := true;
          break;
        }
        pstr := pstr + 1;
      }
      KeyEndAt(str, pstr, sep, eq);
      assert pstr == from + KeyEnd(here, sep, eq) && here[pstr - from..] == str[pstr..];
      assert here[..pstr - from] == str[from..pstr];
      strKey := Decode(str, from, pstr);
      if pstr < |str| && foundEq {
        assert here[pstr - from + |eq|..] == str[pstr + |eq|..];
        pstr := pstr + |eq|;
      }
    }

    /** The value loop of one segment and the step over the separator. */
    static method ReadValue(str: seq<Byte>, from: nat, sep: seq<Byte>) returns (strValue: seq<Byte>, pstr: nat)
      requires from <= |str|
      ensures strValue == Decoded(str[from..][..ValueEnd(str[from..], sep)], true)
      ensures pstr <= |str| && str[pstr..] == BehindValue(str[from..], sep)
    {
      hide ValueEnd, Decoded;
      ghost var here := str[from..];
      pstr := from;
      while pstr < |str| && !(sep <= str[pstr..])
        invariant from <= pstr <= |str|
        invariant pstr + ValueEnd(str[pstr..], sep) == from + ValueEnd(here, sep)
      {
        ValueEndAt(str, pstr, sep);
        pstr := pstr + 1;
      }
      ValueEndAt(str, pstr, sep);
      assert pstr == from + ValueEnd(here, sep) && here[..pstr - from] == str[from..pstr];
      strValue := Decode(str, from, pstr);
      if pstr < |str| {
        assert here[pstr - from + |sep|..] == str[pstr + |sep|..];
        pstr := pstr + |sep|;
      }
    }

    /** The piece between two positions, decoded in form mode; an empty piece is an empty string. */
    static method Decode(str: seq<Byte>, from: nat, to: nat) returns (piece: seq<Byte>)
      requires from <= to <= |str|
      ensures piece == Decoded(str[from..to], true)
    {
      if to > from {
        piece := DecodeURI(str[from..to], true);
      } else {
        piece := [];
      }
    }
  }

  // ---------------------------------------------------------------- what comes back

  /** The pairs as a client writes them: key, '=', value, joined by '&'. */
  function Joined(tab: string, space: bool, pairs: seq<Pair>): seq<Byte>
    requires IsTable(tab)
    decreases |pairs|
  {
    if pairs == [] then []
    else if |pairs| == 1 then JoinedPair(tab, space, pairs[0])
    else JoinedPair(tab, space, pairs[0]) + [AMP] + Joined(tab, space, pairs[1..])
  }

  function JoinedPair(tab: string, space: bool, p: Pair): seq<Byte>
    requires IsTable(tab)
  {
    Encoded(tab, space, p.key) + [EQ] + Encoded(tab, space, p.value)
  }

  ghost predicate PairsComeBack(tab: string, space: bool)
    requires IsTable(tab)
  {
    forall pairs: seq<Pair> :: Parsed(Joined(tab, space, pairs), [AMP], [EQ]) == pairs
  }

  predicate Clean(s: seq<Byte>) {
    forall k :: 0 <= k < |s| ==> s[k] != AMP && s[k] != EQ
  }

  lemma {:induction false} EncodedClean(tab: string, space: bool, s: seq<Byte>)
    requires IsTable(tab) && !Passes(tab, AMP) && !Passes(tab, EQ)
    ensures Clean(Encoded(tab, space, s))
  {
    if s != [] {
      EncodedClean(tab, space, s[1..]);
      assert Clean(EncodeByte(tab, space, s[0]));
    }
  }

  /** A one-byte delimiter starts exactly where its byte is. */
  lemma OneByte(c: Byte, s: seq<Byte>)
    ensures [c] <= s <==> s != [] && s[0] == c
  {
  }

  lemma {:induction false} KeyEndSkips(e: seq<Byte>, t: seq<Byte>)
    requires Clean(e) && t != [] && t[0] == EQ
    ensures KeyEnd(e + t, [AMP], [EQ]) == |e|
  {
    if e == [] {
      assert e + t == t && [EQ] <= t;
    } else {
      OneByte(AMP, e + t);
      OneByte(EQ, e + t);
      KeyEndSkips(e[1..], t);
      assert (e + t)[1..] == e[1..] + t;
    }
  }

  lemma {:induction false} ValueEndSkips(e: seq<Byte>, t: seq<Byte>)
    requires Clean(e) && (t == [] || t[0] == AMP)
    ensures ValueEnd(e + t, [AMP]) == |e|
  {
    if e == [] {
      assert e + t == t;
      OneByte(AMP, t);
    } else {
      OneByte(AMP, e + t);
      ValueEndSkips(e[1..], t);
      assert (e + t)[1..] == e[1..] + t;
    }
  }

  /** Cutting a clean key off the head of a text. */
  lemma CleanKey(k: seq<Byte>, t: seq<Byte>, s: seq<Byte>)
    requires Clean(k) && s == k + [EQ] + t
    ensures s != [] && s[0] != AMP
    ensures KeyEnd(s, [AMP], [EQ]) == |k| && s[..|k|] == k && BehindKey(s, [AMP], [EQ]) == t
  {
    hide KeyEnd;
    KeyEndSkips(k, [EQ] + t);
    assert s == k + ([EQ] + t) && s[|k| + 1..] == t;
    OneByte(AMP, s[|k|..]);
  }

  /** Cutting a clean value. */
  lemma CleanValue(v: seq<Byte>, t: seq<Byte>)
    requires Clean(v) && (t == [] || t[0] == AMP)
    ensures ValueEnd(v + t, [AMP]) == |v| && (v + t)[..|v|] == v
    ensures BehindValue(v + t, [AMP]) == if t == [] then [] else t[1..]
  {
    hide ValueEnd;
    ValueEndSkips(v, t);
    assert t != [] ==> (v + t)[|v| + 1..] == t[1..];
  }

  /** One clean `key=value` at the head of a text. */
  lemma CleanSegment(k: seq<Byte>, v: seq<Byte>, t: seq<Byte>)
    requires Clean(k) && Clean(v) && (t == [] || t[0] == AMP)
    ensures Parsed(k + [EQ] + v + t, [AMP], [EQ])
         == [Pair(Decoded(k, true), Decoded(v, true))] + Parsed(if t == [] then [] else t[1..], [AMP], [EQ])
  {
    hide Decoded, Parsed, KeyEnd, ValueEnd, BehindKey, BehindValue, Clean;
    var s := k + [EQ] + v + t;
    assert s == k + [EQ] + (v + t);
    CleanKey(k, v + t, s);
    CleanValue(v, t);
    OneByte(AMP, s);
    ParsedStep(s, [AMP], [EQ]);
  }

  /** The pairs read back from their joined text, each key and value decoded. */
  lemma {:induction false} ParsedJoined(tab: string, space: bool, pairs: seq<Pair>)
    requires IsTable(tab) && Restores(tab, space, true) && !Passes(tab, AMP) && !Passes(tab, EQ)
    ensures Parsed(Joined(tab, space, pairs), [AMP], [EQ]) == pairs
    decreases |pairs|
  {
    hide Decoded, Encoded, Restores, Parsed, Clean;
    if pairs == [] {
      ParsedNothing();
    } else {
      var p := pairs[0];
      var k, v := Encoded(tab, space, p.key), Encoded(tab, space, p.value);
      EncodedClean(tab, space, p.key);
      EncodedClean(tab, space, p.value);
      RoundTrip(tab, space, true, p.key);
      RoundTrip(tab, space, true, p.value);
      if |pairs| == 1 {
        CleanSegment(k, v, []);
        assert k + [EQ] + v + [] == k + [EQ] + v;
        ParsedNothing();
      } else {
        var rest := Joined(tab, space, pairs[1..]);
        CleanSegment(k, v, [AMP] + rest);
        assert ([AMP] + rest)[1..] == rest;
        assert k + [EQ] + v + ([AMP] + rest) == k + [EQ] + v + [AMP] + rest;
        ParsedJoined(tab, space, pairs[1..]);
      }
      assert pairs == [p] + pairs[1..];
    }
  }

  lemma ParsedNothing()
    ensures Parsed([], [AMP], [EQ]) == []
  {
  }

  lemma OnePair(tab: string, space: bool, p: Pair)
    requires IsTable(tab)
    ensures Joined(tab, space, [p]) == Encoded(tab, space, p.key) + [EQ] + Encoded(tab, space, p.value)
  {
  }

  /** A passed '&' in a name splits the pair; a passed '=' in a name ends it early. */
  lemma PassedDelimiterBreaks(tab: string, space: bool, c: Byte)
    requires IsTable(tab) && (c == AMP || c == EQ) && Passes(tab, c)
    ensures !PairsComeBack(tab, space)
  {
    var p := Pair([c], []);
    OnePair(tab, space, p);
    assert Encoded(tab, space, [c]) == [c] by {
      AllPass(tab, space, [c]);
    }
    var s := Joined(tab, space, [p]);
    assert s == [c, EQ];
    ParsedStep(s, [AMP], [EQ]);
    if c == AMP {
      assert [AMP] <= s;
      assert KeyEnd(s, [AMP], [EQ]) == 0 && BehindKey(s, [AMP], [EQ]) == s;
      assert BehindValue(s, [AMP]) == [EQ];
      CleanSegment([], [], []);
      assert [] + [EQ] + [] + [] == [EQ];
      assert Parsed(s, [AMP], [EQ])[0].key == Decoded([], true) == [];
    } else {
      assert !([AMP] <= s) && [EQ] <= s && KeyEnd(s, [AMP], [EQ]) == 0;
      assert Parsed(s, [AMP], [EQ])[0].key == Decoded(s[..0], true) == [];
    }
    assert Parsed(s, [AMP], [EQ]) != [p];
  }

  /** A key the codec does not restore does not come back either. */
  lemma LostKey(tab: string, space: bool, k: seq<Byte>)
    requires IsTable(tab) && !Passes(tab, AMP) && !Passes(tab, EQ)
    requires Decoded(Encoded(tab, space, k), true) != k
    ensures !PairsComeBack(tab, space)
  {
    hide Decoded, Parsed, Clean;
    var p := Pair(k, []);
    OnePair(tab, space, p);
    EncodedClean(tab, space, k);
    EncodedClean(tab, space, []);
    var e := Encoded(tab, space, k);
    CleanSegment(e, [], []);
    assert e + [EQ] + [] + [] == e + [EQ] + [] == Joined(tab, space, [p]);
    assert Parsed(Joined(tab, space, [p]), [AMP], [EQ])[0].key != k;
  }

  /** Every list of pairs, empty names and values included, comes back exactly under this condition on the table. */
  lemma ParseRoundTripIff(tab: string, space: bool)
    requires IsTable(tab)
    ensures PairsComeBack(tab, space) <==> Restores(tab, space, true) && !Passes(tab, AMP) && !Passes(tab, EQ)
  {
    if Passes(tab, AMP) {
      PassedDelimiterBreaks(tab, space, AMP);
    } else if Passes(tab, EQ) {
      PassedDelimiterBreaks(tab, space, EQ);
    } else if !Restores(tab, space, true) {
      RoundTripIff(tab, space, true);
      var k: seq<Byte> :| Decoded(Encoded(tab, space, k), true) != k;
      LostKey(tab, space, k);
    } else {
      forall pairs: seq<Pair>
        ensures Parsed(Joined(tab, space, pairs), [AMP], [EQ]) == pairs
      {
        ParsedJoined(tab, space, pairs);
      }
    }
  }

  // ---------------------------------------------------------------- the same by splitting

  function IndexOf(c: Byte, s: seq<Byte>): (k: nat)
    ensures k <= |s| && (k < |s| ==> s[k] == c) && Without(c, s, 0, k)
  {
    if s == [] || s[0] == c then 0 else IndexOf(c, s[1..]) + 1
  }

  predicate Without(c: Byte, s: seq<Byte>, i: nat, j: nat) { forall k :: i <= k < j && k < |s| ==> s[k] != c }

  /** The pieces between the '&'. */
  function Segments(s: seq<Byte>): (segments: seq<seq<Byte>>)
    decreases |s|
  {
    var k := IndexOf(AMP, s);
    if k == |s| then [s] else [s[..k]] + Segments(s[k + 1..])
  }

  /** Name and value of a piece: what is in front of its first '=' and what is behind it; without one it is all name. */
  function PairOf(segment: seq<Byte>): Pair {
    var k := IndexOf(EQ, segment);
    Pair(Decoded(segment[..k], true), Decoded(if k < |segment| then segment[k + 1..] else [], true))
  }

  /** Empty pieces count for nothing. */
  function PairsOf(segments: seq<seq<Byte>>): (pairs: seq<Pair>) {
    if segments == [] then []
    else (if segments[0] == [] then [] else [PairOf(segments[0])]) + PairsOf(segments[1..])
  }

  lemma {:induction false} FirstAt(c: Byte, s: seq<Byte>, k: nat)
    requires k <= |s| && Without(c, s, 0, k) && (k < |s| ==> s[k] == c)
    ensures IndexOf(c, s) == k
    decreases |s|
  {
    if k > 0 {
      FirstAt(c, s[1..], k - 1);
    }
  }

  lemma WithoutPart(c: Byte, s: seq<Byte>, i: nat, j: nat)
    requires i <= j <= |s| && Without(c, s, 0, j)
    ensures Without(c, s[i..], 0, j - i) && Without(c, s[..j], 0, j)
  {
  }

  /** The key of a text ends at the first '&' or '='. */
  lemma {:induction false} KeyEndIs(s: seq<Byte>)
    ensures var a, e := IndexOf(AMP, s), IndexOf(EQ, s);
            KeyEnd(s, [AMP], [EQ]) == if a < e then a else e
    decreases |s|
  {
    if s != [] {
      OneByte(AMP, s);
      OneByte(EQ, s);
      KeyEndIs(s[1..]);
    }
  }

  lemma {:induction false} ValueEndIs(s: seq<Byte>)
    ensures ValueEnd(s, [AMP]) == IndexOf(AMP, s)
    decreases |s|
  {
    if s != [] {
      OneByte(AMP, s);
      ValueEndIs(s[1..]);
    }
  }

  /** The first piece gives the first pair, and what is behind its '&' is left. */
  lemma FirstSegment(s: seq<Byte>)
    requires s != []
    ensures var a := IndexOf(AMP, s);
            && FirstPair(s, [AMP], [EQ]) == PairOf(s[..a])
            && BehindValue(BehindKey(s, [AMP], [EQ]), [AMP]) == if a < |s| then s[a + 1..] else []
  {
    hide *;
    var a, e := IndexOf(AMP, s), IndexOf(EQ, s);
    KeyEndIs(s);
    if e < a {
      WithEquals(s, a, e);
    } else {
      NoEquals(s, a, e);
    }
  }

  lemma PairFrom(s: seq<Byte>, k: nat, r: seq<Byte>, n: nat)
    requires KeyEnd(s, [AMP], [EQ]) == k && BehindKey(s, [AMP], [EQ]) == r && ValueEnd(r, [AMP]) == n
    ensures FirstPair(s, [AMP], [EQ]) == Pair(Decoded(s[..k], true), Decoded(r[..n], true))
  {
  }

  lemma PairAt(segment: seq<Byte>, k: nat, name: seq<Byte>, value: seq<Byte>)
    requires IndexOf(EQ, segment) == k && segment[..k] == name
    requires if k < |segment| then segment[k + 1..] == value else value == []
    ensures PairOf(segment) == Pair(Decoded(name, true), Decoded(value, true))
  {
  }

  lemma BehindEquals(s: seq<Byte>, e: nat)
    requires KeyEnd(s, [AMP], [EQ]) == e < |s| && s[e] == EQ
    ensures BehindKey(s, [AMP], [EQ]) == s[e + 1..]
  {
    OneByte(AMP, s[e..]);
  }

  lemma BehindNone(s: seq<Byte>, a: nat)
    requires KeyEnd(s, [AMP], [EQ]) == a && (a < |s| ==> s[a] == AMP)
    ensures BehindKey(s, [AMP], [EQ]) == s[a..]
  {
    OneByte(AMP, s[a..]);
  }

  lemma WithEquals(s: seq<Byte>, a: nat, e: nat)
    requires a == IndexOf(AMP, s) && e == IndexOf(EQ, s) && e < a && KeyEnd(s, [AMP], [EQ]) == e
    ensures FirstPair(s, [AMP], [EQ]) == PairOf(s[..a])
    ensures BehindValue(BehindKey(s, [AMP], [EQ]), [AMP]) == if a < |s| then s[a + 1..] else []
  {
    hide *;
    var v := s[e + 1..];
    BehindEquals(s, e);
    ValueBehind(s, e, a);
    PairFrom(s, e, v, a - e - 1);
    FirstInPart(s, e, a);
    PairAt(s[..a], e, s[..e], v[..a - e - 1]);
  }

  /** Nothing in front of the index is the byte. */
  lemma AtIndex(c: Byte, s: seq<Byte>, k: nat)
    requires k < IndexOf(c, s)
    ensures s[k] != c
  {
  }

  lemma FirstInPart(s: seq<Byte>, e: nat, a: nat)
    requires e == IndexOf(EQ, s) && e < a <= |s|
    ensures IndexOf(EQ, s[..a]) == e
  {
    hide IndexOf;
    WithoutPart(EQ, s[..a], 0, e);
    FirstAt(EQ, s[..a], e);
  }

  lemma ValueBehind(s: seq<Byte>, e: nat, a: nat)
    requires a == IndexOf(AMP, s) && e < a
    ensures ValueEnd(s[e + 1..], [AMP]) == a - e - 1
    ensures BehindValue(s[e + 1..], [AMP]) == if a < |s| then s[a + 1..] else []
  {
    hide ValueEnd, IndexOf;
    var v := s[e + 1..];
    WithoutPart(AMP, s, e + 1, a);
    FirstAt(AMP, v, a - e - 1);
    ValueEndIs(v);
    assert a < |s| ==> v[a - e..] == s[a + 1..];
  }

  lemma NoEquals(s: seq<Byte>, a: nat, e: nat)
    requires s != [] && a == IndexOf(AMP, s) && e == IndexOf(EQ, s) && a <= e && KeyEnd(s, [AMP], [EQ]) == a
    ensures FirstPair(s, [AMP], [EQ]) == PairOf(s[..a])
    ensures BehindValue(BehindKey(s, [AMP], [EQ]), [AMP]) == if a < |s| then s[a + 1..] else []
  {
    hide *;
    var r := s[a..];
    BehindNone(s, a);
    NothingBehind(r);
    PairFrom(s, a, r, 0);
    NoneInPart(s, a, e);
    PairAt(s[..a], a, s[..a], r[..0]);
    assert a < |s| ==> r[1..] == s[a + 1..];
  }

  lemma NothingBehind(r: seq<Byte>)
    requires r != [] ==> r[0] == AMP
    ensures ValueEnd(r, [AMP]) == 0 && BehindValue(r, [AMP]) == if r != [] then r[1..] else []
  {
    hide ValueEnd;
    FirstAt(AMP, r, 0);
    ValueEndIs(r);
  }

  lemma NoneInPart(s: seq<Byte>, a: nat, e: nat)
    requires e == IndexOf(EQ, s) && a <= e
    ensures IndexOf(EQ, s[..a]) == a
  {
    hide IndexOf;
    FirstAt(EQ, s[..a], a);
  }

  /** For every text: parse() cuts it at each '&', skips empty pieces, and cuts each at its first '=' (the
      application/x-www-form-urlencoded parser, section 5.1 of the URL Standard). */
  lemma {:induction false} ParsedSplits(s: seq<Byte>)
    ensures Parsed(s, [AMP], [EQ]) == PairsOf(Segments(s))
    decreases |s|
  {
    hide KeyEnd, ValueEnd, Decoded, BehindKey, BehindValue, FirstPair, PairOf;
    if s == [] {
      assert Segments(s) == [[]] && PairsOf([[]]) == [];
    } else {
      var a := IndexOf(AMP, s);
      ParsedStep(s, [AMP], [EQ]);
      FirstSegment(s);
      OneByte(AMP, s);
      if a < |s| {
        ParsedSplits(s[a + 1..]);
        assert Segments(s)[1..] == Segments(s[a + 1..]);
      } else {
        assert s[..a] == s && Segments(s)[1..] == [];
        ParsedNothing();
      }
    }
  }

  const UPPER: string := "ABCDEFGHIJKLMNOPQRSTUVWXYZ"
  const LOWER: string := "abcdefghijklmnopqrstuvwxyz"

  /** Each upper-case letter becomes its lower-case one, every other byte stays. */
  lemma LowerCaseIs(s: seq<Byte>, k: nat, i: nat)
    requires k < |s| && i < 26
    ensures |LowerCase(s)| == |s|
    ensures s[k] == UPPER[i] as int ==> LowerCase(s)[k] == LOWER[i] as int
    ensures LowerCase(s)[k] != s[k] ==> UPPER[0] as int <= s[k] <= UPPER[25] as int
  {
  }

  /** What is stored: every pair up to the first with a refused name, the names in lower case where asked. */
  lemma {:induction false} StoredIs(pairs: seq<Pair>, allowEmpty: bool, lower: bool) returns (n: nat)
    ensures n <= |pairs| && (n < |pairs| ==> pairs[n].key == [] && !allowEmpty)
    ensures forall i :: 0 <= i < n ==> allowEmpty || pairs[i].key != []
    ensures var r := Stored(pairs, allowEmpty, lower);
            && (r.failed <==> n < |pairs|) && |r.entries| == n
            && forall i :: 0 <= i < n ==>
                 r.entries[i] == Pair(if lower then LowerCase(pairs[i].key) else pairs[i].key, pairs[i].value)
  {
    if pairs == [] || (pairs[0].key == [] && !allowEmpty) {
      n := 0;
    } else {
      var m := StoredIs(pairs[1..], allowEmpty, lower);
      n := m + 1;
    }
  }
}
