/** Reading a chunked body (fibjs/include/ChunkedStream.h:37-145) over a BufferedStream with EOL "\r\n"
    (fibjs/src/io/BufferedStream.cpp:83-142, 240-330): sizes, limits and buffered slices. */
module ChunkedBodies {
  import opened Results
  import opened UriCodecs

  const CR: Byte := 0x0D
  const LF: Byte := 0x0A
  const ZERO: Byte := 0x30
  const MEGABYTE := 0x10_0000
  const LINE_LIMIT := 64
  const INT32_MAX := 0x7FFF_FFFF

  type Int32 = x: int | -0x8000_0000 <= x < 0x8000_0000

  /** maxChunkSize and maxBodySize are in megabytes, a negative body size means no limit. `arrives` is the network:
      how much one read without a size gets of the bytes still to come. */
  datatype Config = Config(maxChunkSize: Int32, maxBodySize: Int32, trailers: bool, arrives: nat -> nat)

  /** `wire` is what the underlying stream will still give before it ends. */
  datatype State = State(
    wire: seq<Byte>,
    data: Option<seq<Byte>>,      // m_data
    pos: nat,                     // m_pos
    contentLength: int,           // m_contentLength
    trailerLines: seq<seq<Byte>>)

  datatype Reply = Data(bytes: seq<Byte>) | Ended | Failed

  // ---------------------------------------------------------------- the buffered stream

  /** Where the first line end starts, or the length. */
  function LineEnd(s: seq<Byte>): (k: nat)
    ensures k <= |s| && (k < |s| ==> k + 1 < |s| && s[k] == CR && s[k + 1] == LF)
  {
    if |s| < 2 then |s| else if s[0] == CR && s[1] == LF then 0 else LineEnd(s[1..]) + 1
  }

  /** readLine(64): None when the line is too long; at the end of the stream the line is what is left. */
  function ReadLine(wire: seq<Byte>): (r: Option<(seq<Byte>, seq<Byte>)>)
    ensures r.Some? ==> |r.value.0| + |r.value.1| <= |wire|
  {
    var k := LineEnd(wire);
    if k < |wire| then
      if k > LINE_LIMIT then None else Some((wire[..k], wire[k + 2..]))
    else if |wire| > LINE_LIMIT + 2 then None
    else Some((wire, []))
  }

  /** What is buffered, or else one read of the underlying stream: at least a byte before its end, and a length that
      an int32 holds. */
  function Arrived(cfg: Config, left: nat): (n: nat)
    ensures n <= left && n <= INT32_MAX && (n == 0 <==> left == 0)
  {
    var n := cfg.arrives(left);
    var most := if left <= INT32_MAX then left else INT32_MAX;
    if n > most then most else if n == 0 && left > 0 then 1 else n
  }

  function Got(d: Option<seq<Byte>>): seq<Byte> {
    if d.Some? then d.value else []
  }

  /** readBuffer(bytes): fewer only at the end of the stream, and whatever arrives for a negative size; None for no
      bytes at all. */
  function ReadBytes(cfg: Config, wire: seq<Byte>, bytes: Int32): (r: (Option<seq<Byte>>, seq<Byte>))
    ensures |r.1| <= |wire|
    ensures Got(r.0) + r.1 == wire && r.0 != Some([])
    ensures |Got(r.0)| <= if bytes < 0 then INT32_MAX else bytes
  {
    var n := if bytes < 0 then Arrived(cfg, |wire|) else if bytes <= |wire| then bytes else |wire|;
    (if n == 0 then None else Some(wire[..n]), wire[n..])
  }

  // ---------------------------------------------------------------- chunk sizes

  predicate IsSpace(c: Byte) {
    c == 0x20 || c == 0x09 || c == CR || c == LF
  }

  function SkipSpace(s: seq<Byte>): (r: seq<Byte>)
    ensures |r| <= |s|
  {
    if s != [] && IsSpace(s[0]) then SkipSpace(s[1..]) else s
  }

  /** Two's complement in 64 and 32 bits. */
  function Int64(v: int): (r: int)
    ensures -0x8000_0000_0000_0000 <= r < 0x8000_0000_0000_0000
  {
    (v + 0x8000_0000_0000_0000) % 0x1_0000_0000_0000_0000 - 0x8000_0000_0000_0000
  }

  function ToInt32(v: int): Int32 {
    (v + 0x8000_0000) % 0x1_0000_0000 - 0x8000_0000
  }

  /** The value of the leading digits read as a numeral. */
  function Numeral(s: seq<Byte>, v: nat): nat {
    if s != [] && IsXDigit(s[0]) then Numeral(s[1..], v * 16 + Hex(s[0])) else v
  }

  /** The accumulating loop over int64. */
  method ParseSize(s: seq<Byte>) returns (sz: int)
    ensures sz == Int64(Numeral(s, 0))
  {
    sz := 0;
    ghost var v: nat := 0;
    var p := 0;
    while p < |s| && IsXDigit(s[p])
      invariant p <= |s|
      invariant sz == Int64(v) && Numeral(s[p..], v) == Numeral(s, 0)
    {
      assert s[p..][1..] == s[p + 1..];
      ShiftWraps(v, Hex(s[p]));
      v := v * 16 + Hex(s[p]);
      sz := Int64(sz * 16 + Hex(s[p]));
      p := p + 1;
    }
  }

  lemma ShiftWraps(v: int, h: int)
    ensures Int64(Int64(v) * 16 + h) == Int64(v * 16 + h)
  {
    var k := (v + 0x8000_0000_0000_0000) / 0x1_0000_0000_0000_0000;
    assert Int64(v) == v - k * 0x1_0000_0000_0000_0000;
    SameResidue(v * 16 + h, 16 * k);
  }

  lemma SameResidue(v: int, k: int)
    ensures Int64(v - k * 0x1_0000_0000_0000_0000) == Int64(v)
  {
    var m := 0x1_0000_0000_0000_0000;
    var w := v + 0x8000_0000_0000_0000;
    assert w - k * m == (w / m - k) * m + w % m;
    UniqueRemainder(w - k * m, w / m - k, w % m);
  }

  lemma UniqueRemainder(w: int, q: int, r: int)
    requires w == q * 0x1_0000_0000_0000_0000 + r && 0 <= r < 0x1_0000_0000_0000_0000
    ensures w % 0x1_0000_0000_0000_0000 == r
  {
  }

  // ---------------------------------------------------------------- one read

  ghost predicate Valid(st: State) {
    match st.data
    case None => st.pos == 0
    case Some(buf) => st.pos < |buf|
  }

  /** chunk_end, once for every trailer line. */
  function TrailerPart(cfg: Config, st: State, line: seq<Byte>): (r: (State, Reply))
    ensures r.1.Ended? || r.1.Failed?
    ensures r.0.data == st.data && r.0.pos == st.pos && r.0.contentLength == st.contentLength
    decreases |st.wire| + |line|
  {
    if cfg.trailers && line != [] then
      var st1 := st.(trailerLines := st.trailerLines + [line]);
      match ReadLine(st.wire)
      case None => (st1, Failed)
      case Some((l, w)) => TrailerPart(cfg, st1.(wire := w), l)
    else (st, Ended)
  }

  /** The data of a chunk, its size cut to 32 bits, and the line behind it. */
  function ChunkData(cfg: Config, st: State, sz: nat): (r: (State, Option<Reply>))
    requires st.pos == 0
    ensures Valid(r.0) && |r.0.wire| <= |st.wire| && (r.1.Some? ==> !r.1.value.Data?)
  {
    var (d, w) := ReadBytes(cfg, st.wire, ToInt32(sz));
    var st1 := st.(wire := w, data := d);
    match ReadLine(w)
    case None => (st1, Some(Failed))
    case Some((_, w1)) => (st1.(wire := w1), None)
  }

  /** chunk_head, chunk_body and chunk_body_end: a reply, or None when the read goes on with m_data. */
  function Fetch(cfg: Config, st: State): (r: (State, Option<Reply>))
    requires st.data.None? && st.pos == 0
    ensures Valid(r.0)
    ensures r.1.None? ==> |r.0.wire| < |st.wire|
    ensures r.1.Some? ==> !r.1.value.Data?
  {
    match ReadLine(st.wire)
    case None => (st, Some(Failed))
    case Some((line, w)) =>
      var s := SkipSpace(line);
      var st1 := st.(wire := w);
      if s == [] || !IsXDigit(s[0]) then (st1, Some(Failed)) else
      var sz := Int64(Numeral(s, 0));
      if sz < 0 then (st1, Some(Failed))
      else if sz == 0 then
        (match ReadLine(w)
         case None => (st1, Some(Failed))
         case Some((l, w2)) =>
           var r := TrailerPart(cfg, st1.(wire := w2), l);
           (r.0, Some(r.1)))
      else if sz > cfg.maxChunkSize * MEGABYTE then (st1, Some(Failed))
      else
        var st2 := st1.(contentLength := st.contentLength + sz);
        if cfg.maxBodySize >= 0 && st2.contentLength > cfg.maxBodySize * MEGABYTE then (st2, Some(Failed)) else
        ChunkData(cfg, st2, sz)
  }

  /** The slice of m_data a read of `bytes` gets. */
  function Slice(st: State, bytes: int): (n: nat)
    requires st.data.Some? && st.pos < |st.data.value|
    ensures st.pos + n <= |st.data.value|
  {
    var left := |st.data.value| - st.pos;
    if bytes < 0 || bytes > left then left else bytes
  }

  function TakeSlice(st: State, bytes: int): (r: (State, Reply))
    requires st.data.Some? && st.pos < |st.data.value|
    ensures Valid(r.0) && r.1.Data?
  {
    var n := Slice(st, bytes);
    var reply := Data(st.data.value[st.pos..st.pos + n]);
    if st.pos + n == |st.data.value| then (st.(data := None, pos := 0), reply) else (st.(pos := st.pos + n), reply)
  }

  /** readBuffer(bytes) to its end. */
  function Read(cfg: Config, st: State, bytes: int): (r: (State, Reply))
    requires Valid(st)
    ensures Valid(r.0)
    decreases |st.wire|, if st.data.None? then 1 else 0
  {
    if st.data.Some? then TakeSlice(st, bytes) else
      var (st1, reply) := Fetch(cfg, st);
      match reply
      case Some(r) => (st1, r)
      case None => Read(cfg, st1, bytes)
  }

  // ---------------------------------------------------------------- the object

  class ChunkedStream {
    const cfg: Config
    var wire: seq<Byte>
    var data: Option<seq<Byte>>
    var pos: nat
    var contentLength: int
    var trailerLines: seq<seq<Byte>>

    constructor (cfg: Config, wire: seq<Byte>)
      ensures this.cfg == cfg && Now() == State(wire, None, 0, 0, [])
    {
      this.cfg := cfg;
      this.wire := wire;
      data, pos, contentLength, trailerLines := None, 0, 0, [];
    }

    ghost function Now(): State
      reads this
    {
      State(wire, data, pos, contentLength, trailerLines)
    }

    method NextLine() returns (line: Option<seq<Byte>>)
      modifies this`wire
      ensures match ReadLine(old(wire)) {
                case None => line.None? && wire == old(wire)
                case Some((l, w)) => line == Some(l) && wire == w
              }
    {
      var r := ReadLine(wire);
      if r.None? {
        return None;
      }
      wire := r.value.1;
      return Some(r.value.0);
    }

    method ReadBuffer(bytes: int) returns (reply: Reply)
      requires Valid(Now())
      modifies this
      ensures (Now(), reply) == Read(cfg, old(Now()), bytes)
      decreases |wire|, if data.None? then 1 else 0
    {
      if data.Some? {
        var buf := data.value;
        var n := bytes;
        if n < 0 || n > |buf| - pos {
          n := |buf| - pos;
        }
        reply := Data(buf[pos..pos + n]);
        pos := pos + n;
        if pos == |buf| {
          data, pos := None, 0;
        }
        return;
      }
      var early := ChunkBody();
      if early.Some? {
        return early.value;
      }
      reply := ReadBuffer(bytes);
    }

    /** From chunk_head to the state that reads on. */
    method ChunkBody() returns (reply: Option<Reply>)
      requires data.None? && pos == 0
      modifies this
      ensures (Now(), reply) == Fetch(cfg, old(Now()))
    {
      hide ReadLine, ReadBytes, Int64, ToInt32, Numeral, SkipSpace, TrailerPart, IsXDigit;
      var line := NextLine();
      if line.None? {
        return Some(Failed);
      }
      var s := SkipSpace(line.value);
      if s == [] || !IsXDigit(s[0]) {
        return Some(Failed);
      }
      var sz := ParseSize(s);
      if sz < 0 {
        return Some(Failed);
      }
      if sz > 0 {
        if sz > cfg.maxChunkSize * MEGABYTE {
          return Some(Failed);
        }
        contentLength := contentLength + sz;
        if cfg.maxBodySize >= 0 && contentLength > cfg.maxBodySize * MEGABYTE {
          return Some(Failed);
        }
        var r := ReadBytes(cfg, wire, ToInt32(sz));
        data, wire := r.0, r.1;
        var end := NextLine();
        return if end.None? then Some(Failed) else None;
      }
      var trailer := NextLine();
      if trailer.None? {
        return Some(Failed);
      }
      var r := ChunkEnd(trailer.value);
      return Some(r);
    }

    method ChunkEnd(first: seq<Byte>) returns (reply: Reply)
      modifies this`wire, this`trailerLines
      ensures (Now(), reply) == TrailerPart(cfg, old(Now()), first)
    {
      var line := first;
      ghost var end := TrailerPart(cfg, Now(), line);
      while cfg.trailers && |line| > 0
        invariant end == TrailerPart(cfg, Now(), line)
        decreases |wire| + |line|
      {
        trailerLines := trailerLines + [line];
        var next := NextLine();
        if next.None? {
          return Failed;
        }
        line := next.value;
      }
      return Ended;
    }
  }

  // ---------------------------------------------------------------- messages

  /** A chunk as it is written: blanks, size digits, extension, data. */
  datatype Chunk = Chunk(lead: seq<Byte>, size: seq<Byte>, ext: seq<Byte>, body: seq<Byte>)

  datatype Message = Message(chunks: seq<Chunk>, last: Chunk, trailers: seq<seq<Byte>>, tail: seq<Byte>)

  predicate NoLineEnd(s: seq<Byte>) {
    forall k :: 0 <= k < |s| ==> s[k] != CR
  }

  /** The size line says how long the data is, in hexadecimal digits, and fits the line limit. */
  predicate SizeLine(c: Chunk) {
    && (forall k :: 0 <= k < |c.lead| ==> c.lead[k] == 0x20 || c.lead[k] == 0x09)
    && c.size != [] && (forall k :: 0 <= k < |c.size| ==> IsXDigit(c.size[k]))
    && Numeral(c.size, 0) == |c.body|
    && NoLineEnd(c.ext) && (c.ext != [] ==> !IsXDigit(c.ext[0])) && |c.lead| + |c.size| + |c.ext| <= LINE_LIMIT
  }

  function Bodies(chunks: seq<Chunk>): (b: seq<Byte>)
    decreases |chunks|
  {
    if chunks == [] then [] else chunks[0].body + Bodies(chunks[1..])
  }

  predicate WellFormed(m: Message, cfg: Config) {
    && (forall i :: 0 <= i < |m.chunks| ==>
          SizeLine(m.chunks[i]) && 0 < |m.chunks[i].body| <= cfg.maxChunkSize * MEGABYTE)
    && SizeLine(m.last) && m.last.body == []
    && (forall i :: 0 <= i < |m.trailers| ==>
          0 < |m.trailers[i]| <= LINE_LIMIT && NoLineEnd(m.trailers[i]))
  }

  function Line(s: seq<Byte>): seq<Byte> { s + [CR, LF] }

  function Lines(ls: seq<seq<Byte>>): seq<Byte>
    decreases |ls|
  {
    if ls == [] then [] else Line(ls[0]) + Lines(ls[1..])
  }

  function SizeText(c: Chunk): seq<Byte> { c.lead + (c.size + c.ext) }

  /** The bytes of a message, followed by what comes after it. */
  function Wire(m: Message): seq<Byte>
    decreases |m.chunks|
  {
    if m.chunks == [] then Line(SizeText(m.last)) + (Lines(m.trailers) + (Line([]) + m.tail))
    else
      var c := m.chunks[0];
      Line(SizeText(c)) + (Line(c.body) + Wire(m.(chunks := m.chunks[1..])))
  }

  lemma {:induction false} LineEndOf(s: seq<Byte>, t: seq<Byte>)
    requires NoLineEnd(s)
    ensures LineEnd(Line(s) + t) == |s|
  {
    if s != [] {
      LineEndOf(s[1..], t);
      assert (Line(s) + t)[1..] == Line(s[1..]) + t;
    }
  }

  /** A line as written is the line read. */
  lemma LineRead(s: seq<Byte>, t: seq<Byte>)
    requires NoLineEnd(s) && |s| <= LINE_LIMIT
    ensures ReadLine(Line(s) + t) == Some((s, t))
  {
    hide LineEnd;
    LineEndOf(s, t);
    assert (Line(s) + t)[..|s|] == s && (Line(s) + t)[|s| + 2..] == t;
  }

  lemma {:induction false} NumeralStops(s: seq<Byte>, ext: seq<Byte>, v: nat)
    requires (forall k :: 0 <= k < |s| ==> IsXDigit(s[k])) && (ext != [] ==> !IsXDigit(ext[0]))
    ensures Numeral(s + ext, v) == Numeral(s, v)
  {
    if s == [] {
      assert s + ext == ext;
    } else {
      assert (s + ext)[1..] == s[1..] + ext;
      NumeralStops(s[1..], ext, v * 16 + Hex(s[0]));
    }
  }

  lemma {:induction false} LeadSkipped(lead: seq<Byte>, t: seq<Byte>)
    requires (forall k :: 0 <= k < |lead| ==> IsSpace(lead[k])) && t != [] && !IsSpace(t[0])
    ensures SkipSpace(lead + t) == t
  {
    if lead == [] {
      assert lead + t == t;
    } else {
      assert (lead + t)[1..] == lead[1..] + t;
      LeadSkipped(lead[1..], t);
    }
  }

  /** The size line of a chunk gives its size. */
  lemma SizeRead(c: Chunk, t: seq<Byte>)
    requires SizeLine(c)
    ensures var line, s := SizeText(c), c.size + c.ext;
            && ReadLine(Line(line) + t) == Some((line, t)) && SkipSpace(line) == s && s != [] && IsXDigit(s[0])
            && Numeral(s, 0) == |c.body|
  {
    var line := SizeText(c);
    assert NoLineEnd(line);
    LineRead(line, t);
    assert !IsSpace((c.size + c.ext)[0]);
    LeadSkipped(c.lead, c.size + c.ext);
    NumeralStops(c.size, c.ext, 0);
  }

  /** The line behind the last size line, and what follows it. */
  function FirstLine(trailers: seq<seq<Byte>>): seq<Byte> {
    if trailers == [] then [] else trailers[0]
  }

  function BehindFirst(trailers: seq<seq<Byte>>, tail: seq<Byte>): seq<Byte> {
    if trailers == [] then tail else Lines(trailers[1..]) + (Line([]) + tail)
  }

  lemma FirstLineSplit(trailers: seq<seq<Byte>>, tail: seq<Byte>)
    ensures Lines(trailers) + (Line([]) + tail) == Line(FirstLine(trailers)) + BehindFirst(trailers, tail)
  {
  }

  lemma {:induction false} TrailersRead(cfg: Config, st: State, trailers: seq<seq<Byte>>, tail: seq<Byte>)
    requires forall i :: 0 <= i < |trailers| ==> 0 < |trailers[i]| <= LINE_LIMIT && NoLineEnd(trailers[i])
    requires st.wire == BehindFirst(trailers, tail) && (trailers != [] ==> cfg.trailers)
    ensures TrailerPart(cfg, st, FirstLine(trailers))
         == (st.(wire := tail, trailerLines := st.trailerLines + trailers), Ended)
    decreases |trailers|
  {
    hide ReadLine, Line, Lines;
    if trailers == [] {
      assert st.trailerLines + trailers == st.trailerLines;
    } else {
      var rest := trailers[1..];
      FirstLineSplit(rest, tail);
      LineRead(FirstLine(rest), BehindFirst(rest, tail));
      var st1 := st.(trailerLines := st.trailerLines + [trailers[0]], wire := BehindFirst(rest, tail));
      TrailersRead(cfg, st1, rest, tail);
      assert st.trailerLines + [trailers[0]] + rest == st.trailerLines + trailers;
    }
  }

  // ---------------------------------------------------------------- whole bodies

  /** What is still to be read is the message `m`, and its data fits the limits. */
  ghost predicate Fits(cfg: Config, st: State, m: Message) {
    && WellFormed(m, cfg) && Valid(st) && st.wire == Wire(m) && st.contentLength >= 0
    && (cfg.maxBodySize >= 0 ==> st.contentLength + |Bodies(m.chunks)| <= cfg.maxBodySize * MEGABYTE)
  }

  /** The size of a chunk is handed on to the underlying readBuffer in 32 bits. */
  predicate Short(c: Chunk) { |c.body| <= INT32_MAX }

  ghost predicate Reading(cfg: Config, st: State, m: Message) {
    && Fits(cfg, st, m)
    && (forall i :: 0 <= i < |m.chunks| ==> Short(m.chunks[i]))
  }

  function Unread(st: State): seq<Byte> {
    if st.data.Some? && st.pos <= |st.data.value| then st.data.value[st.pos..] else []
  }

  ghost function Rest(st: State, m: Message): seq<Byte> { Unread(st) + Bodies(m.chunks) }

  lemma ToInt32Exact(v: nat)
    ensures ToInt32(v) <= v && (ToInt32(v) == v <==> v <= INT32_MAX) && (ToInt32(v) < 0 ==> v > INT32_MAX)
  {
    var q := (v + 0x8000_0000) / 0x1_0000_0000;
    assert ToInt32(v) == v - q * 0x1_0000_0000 && q >= 0;
  }

  /** What stands behind the size line of the first chunk. */
  function SizeTaken(st: State, m: Message): State
    requires m.chunks != []
  {
    var body := m.chunks[0].body;
    st.(wire := Line(body) + Wire(m.(chunks := m.chunks[1..])), contentLength := st.contentLength + |body|)
  }

  lemma Int64Exact(v: nat)
    ensures Int64(v) == v <==> v < 0x8000_0000_0000_0000
  {
  }

  /** A size line of `s` behind blanks, with the value `sz`: taken on exactly within both limits. */
  lemma SizeAccepted(cfg: Config, st: State, line: seq<Byte>, s: seq<Byte>, t: seq<Byte>, sz: nat)
    requires st.data.None? && st.pos == 0 && st.wire == Line(line) + t && ReadLine(Line(line) + t) == Some((line, t))
    requires SkipSpace(line) == s && s != [] && IsXDigit(s[0]) && Numeral(s, 0) == sz
    requires 0 < sz < 0x8000_0000_0000_0000
    ensures Fetch(cfg, st)
         == if sz > cfg.maxChunkSize * MEGABYTE then (st.(wire := t), Some(Failed))
            else
              var st1 := st.(wire := t, contentLength := st.contentLength + sz);
              if cfg.maxBodySize >= 0 && st1.contentLength > cfg.maxBodySize * MEGABYTE then (st1, Some(Failed))
              else ChunkData(cfg, st1, sz)
  {
    hide ReadLine, Line, Numeral, SkipSpace, ChunkData, IsXDigit, Int64;
    Int64Exact(sz);
  }

  lemma FetchFirst(cfg: Config, st: State, m: Message)
    requires Fits(cfg, st, m) && st.data.None? && m.chunks != []
    ensures Fetch(cfg, st) == ChunkData(cfg, SizeTaken(st, m), |m.chunks[0].body|)
  {
    hide Numeral, ChunkData, ReadLine, IsXDigit, SkipSpace, SizeLine, WellFormed, Line, Fetch;
    WithoutFirst(cfg, m);
    var c, m1 := m.chunks[0], m.(chunks := m.chunks[1..]);
    var t := Line(c.body) + Wire(m1);
    assert |Bodies(m.chunks)| == |c.body| + |Bodies(m1.chunks)|;
    SizeRead(c, t);
    SizeAccepted(cfg, st, SizeText(c), c.size + c.ext, t, |c.body|);
  }

  /** The limits are what they say: a chunk that fits 31 bits is buffered whole exactly when it is within both, and
      otherwise the read fails without its data. */
  lemma ChunkAcceptedIff(cfg: Config, st: State, m: Message)
    requires m.chunks != [] && SizeLine(m.chunks[0]) && 0 < |m.chunks[0].body| && Short(m.chunks[0])
    requires st.data.None? && st.pos == 0 && st.wire == Wire(m)
    ensures var c, r := m.chunks[0], Fetch(cfg, st);
            var within := && |c.body| <= cfg.maxChunkSize * MEGABYTE
                          && (cfg.maxBodySize < 0 || st.contentLength + |c.body| <= cfg.maxBodySize * MEGABYTE);
            if within then r.1 == None && r.0.data == Some(c.body)
            else r.1 == Some(Failed) && r.0.data.None? && Read(cfg, st, -1) == (r.0, Failed)
  {
    hide ReadLine, Line, Numeral, SkipSpace, ChunkData, IsXDigit, SizeLine, Wire, Fetch, SizeText;
    var c, m1 := m.chunks[0], m.(chunks := m.chunks[1..]);
    var t := Line(c.body) + Wire(m1);
    FirstWire(m);
    SizeRead(c, t);
    SizeAccepted(cfg, st, SizeText(c), c.size + c.ext, t, |c.body|);
    WholeData(cfg, st.(wire := t, contentLength := st.contentLength + |c.body|), c.body, Wire(m1));
  }

  lemma FirstWire(m: Message)
    requires m.chunks != []
    ensures Wire(m) == Line(SizeText(m.chunks[0])) + (Line(m.chunks[0].body) + Wire(m.(chunks := m.chunks[1..])))
  {
  }

  /** A line without a digit where the size should be is refused. */
  lemma NoSizeRefused(cfg: Config, st: State, line: seq<Byte>, t: seq<Byte>)
    requires st.data.None? && st.pos == 0 && st.wire == Line(line) + t && NoLineEnd(line) && |line| <= LINE_LIMIT
    requires SkipSpace(line) == [] || !IsXDigit(SkipSpace(line)[0])
    ensures Read(cfg, st, -1) == (st.(wire := t), Failed)
  {
    hide ReadLine, Line, SkipSpace;
    LineRead(line, t);
  }

  lemma FetchChunk(cfg: Config, st: State, m: Message)
    requires Reading(cfg, st, m) && st.data.None? && m.chunks != []
    ensures var body, m1 := m.chunks[0].body, m.(chunks := m.chunks[1..]);
            var st1 := State(Wire(m1), Some(body), 0, st.contentLength + |body|, st.trailerLines);
            Fetch(cfg, st) == (st1, None) && Reading(cfg, st1, m1) && Rest(st1, m1) == Rest(st, m)
  {
    hide Fetch, ChunkData, Wire, SizeLine, WellFormed;
    FetchFirst(cfg, st, m);
    WithoutFirst(cfg, m);
    assert Short(m.chunks[0]);
    WholeData(cfg, SizeTaken(st, m), m.chunks[0].body, Wire(m.(chunks := m.chunks[1..])));
  }

  lemma WholeData(cfg: Config, st: State, body: seq<Byte>, t: seq<Byte>)
    requires 0 < |body| <= INT32_MAX && st.wire == Line(body) + t && st.pos == 0
    ensures ChunkData(cfg, st, |body|) == (st.(wire := t, data := Some(body)), None)
  {
    hide ReadLine, ToInt32;
    ToInt32Exact(|body|);
    assert st.wire[..|body|] == body && st.wire[|body|..] == Line([]) + t;
    LineRead([], t);
  }

  /** A larger size gets less than the chunk, however the bytes arrive. */
  lemma PartOfData(cfg: Config, st: State, sz: nat)
    requires sz > INT32_MAX && st.pos == 0
    ensures |Got(ChunkData(cfg, st, sz).0.data)| < sz
  {
    hide ReadLine, ToInt32, ReadBytes;
    ToInt32Exact(sz);
  }

  /** So a chunk is buffered whole exactly when its size fits 31 bits. */
  lemma ChunkBufferedIff(cfg: Config, st: State, m: Message)
    requires Fits(cfg, st, m) && st.data.None? && m.chunks != []
    ensures Fetch(cfg, st).0.data == Some(m.chunks[0].body) <==> Short(m.chunks[0])
  {
    hide Fetch, ChunkData, Wire, SizeLine, WellFormed;
    FetchFirst(cfg, st, m);
    WithoutFirst(cfg, m);
    var body := m.chunks[0].body;
    if Short(m.chunks[0]) {
      WholeData(cfg, SizeTaken(st, m), body, Wire(m.(chunks := m.chunks[1..])));
    } else {
      PartOfData(cfg, SizeTaken(st, m), |body|);
    }
  }

  lemma WithoutFirst(cfg: Config, m: Message)
    requires WellFormed(m, cfg) && m.chunks != []
    ensures WellFormed(m.(chunks := m.chunks[1..]), cfg) && SizeLine(m.chunks[0])
    ensures 0 < |m.chunks[0].body| <= cfg.maxChunkSize * MEGABYTE
  {
  }

  /** What an ended body leaves in the stream: without a header map for trailers only one line is taken off. */
  function LeftBehind(cfg: Config, m: Message): seq<Byte> {
    if cfg.trailers then m.tail else BehindFirst(m.trailers, m.tail)
  }

  function KeptTrailers(cfg: Config, m: Message): seq<seq<Byte>> {
    if cfg.trailers then m.trailers else []
  }

  lemma FetchEnd(cfg: Config, st: State, m: Message)
    requires Reading(cfg, st, m) && st.data.None? && m.chunks == []
    ensures Fetch(cfg, st)
         == (st.(wire := LeftBehind(cfg, m), trailerLines := st.trailerLines + KeptTrailers(cfg, m)), Some(Ended))
  {
    hide Numeral, Int64, ToInt32, ReadLine, IsXDigit, SkipSpace, LineEnd, SizeLine, Lines, TrailerPart;
    FirstLineSplit(m.trailers, m.tail);
    var w := BehindFirst(m.trailers, m.tail);
    SizeRead(m.last, Line(FirstLine(m.trailers)) + w);
    Int64Exact(0);
    assert NoLineEnd(FirstLine(m.trailers)) && |FirstLine(m.trailers)| <= LINE_LIMIT;
    LineRead(FirstLine(m.trailers), w);
    if cfg.trailers {
      TrailersRead(cfg, st.(wire := w), m.trailers, m.tail);
    } else {
      NoTrailers(cfg, st.(wire := w), FirstLine(m.trailers));
      assert st.trailerLines + [] == st.trailerLines;
    }
  }

  lemma NoTrailers(cfg: Config, st: State, line: seq<Byte>)
    requires !cfg.trailers
    ensures TrailerPart(cfg, st, line) == (st, Ended)
  {
  }

  lemma SliceData(st: State, bytes: int)
    requires Valid(st) && st.data.Some? && bytes != 0
    ensures var (st1, reply) := TakeSlice(st, bytes);
            && reply.Data? && reply.bytes != [] && (bytes > 0 ==> |reply.bytes| <= bytes)
            && Valid(st1) && reply.bytes + Unread(st1) == Unread(st)
            && st1.(data := st.data, pos := st.pos) == st
  {
    var buf, n := st.data.value, Slice(st, bytes);
    assert buf[st.pos..] == buf[st.pos..st.pos + n] + buf[st.pos + n..];
    if st.pos + n == |buf| {
      assert buf[st.pos + n..] == [];
    }
  }

  /** A read that finds data buffered. */
  lemma SliceStep(cfg: Config, st: State, m: Message, bytes: int)
    requires Reading(cfg, st, m) && st.data.Some? && bytes != 0
    ensures var (st1, reply) := TakeSlice(st, bytes);
            && reply.Data? && reply.bytes != [] && (bytes > 0 ==> |reply.bytes| <= bytes)
            && Reading(cfg, st1, m) && reply.bytes + Rest(st1, m) == Rest(st, m)
            && st1.trailerLines == st.trailerLines
  {
    SliceData(st, bytes);
    hide WellFormed, Wire, Bodies, TakeSlice, Unread, Valid;
    var (st1, reply) := TakeSlice(st, bytes);
    assert reply.bytes + (Unread(st1) + Bodies(m.chunks)) == reply.bytes + Unread(st1) + Bodies(m.chunks);
    assert st1.wire == st.wire && st1.contentLength == st.contentLength;
  }

  /** One read of a well-formed body: it ends exactly when everything was read, and otherwise gives some of what
      comes next. */
  lemma ReadStep(cfg: Config, st: State, m: Message, bytes: int) returns (m1: Message)
    requires Reading(cfg, st, m) && bytes != 0
    ensures var (st1, reply) := Read(cfg, st, bytes);
            && m1 == m.(chunks := m1.chunks)
            && (Rest(st, m) == [] ==>
                && reply == Ended && st1.wire == LeftBehind(cfg, m)
                && st1.trailerLines == st.trailerLines + KeptTrailers(cfg, m))
            && (Rest(st, m) != [] ==>
                && reply.Data? && reply.bytes != [] && (bytes > 0 ==> |reply.bytes| <= bytes)
                && Reading(cfg, st1, m1) && reply.bytes + Rest(st1, m1) == Rest(st, m)
                && st1.trailerLines == st.trailerLines)
  {
    hide Fetch, WellFormed, Wire, TakeSlice;
    m1 := m;
    if st.data.Some? {
      SliceStep(cfg, st, m, bytes);
    } else if m.chunks == [] {
      FetchEnd(cfg, st, m);
    } else {
      FetchChunk(cfg, st, m);
      m1 := m.(chunks := m.chunks[1..]);
      SliceStep(cfg, Fetch(cfg, st).0, m1, bytes);
    }
  }

  /** The reads a consumer makes until one of them gives no data: the data so far and that last reply. */
  ghost function Consume(cfg: Config, st: State, requests: seq<int>): (r: (seq<Byte>, Option<Reply>, State))
    requires Valid(st)
    decreases |requests|
  {
    if requests == [] then ([], None, st)
    else
      var (st1, reply) := Read(cfg, st, requests[0]);
      if reply.Data? then
        var (b, last, end) := Consume(cfg, st1, requests[1..]);
        (reply.bytes + b, last, end)
      else ([], Some(reply), st1)
  }

  /** Whatever sizes are asked for, the data is a prefix of the chunk data; the end is reported when and only when
      all of it was delivered, at the latest by the read after as many reads as there are bytes; and it is known
      what is left in the stream then. */
  ghost predicate Delivered(cfg: Config, st: State, m: Message, requests: seq<int>)
    requires Valid(st)
  {
    var (b, last, end) := Consume(cfg, st, requests);
    && b <= Rest(st, m)
    && (last.None? ==> |b| >= |requests|)
    && (last.Some? ==>
        && last.value == Ended && b == Rest(st, m) && end.wire == LeftBehind(cfg, m)
        && end.trailerLines == st.trailerLines + KeptTrailers(cfg, m))
    && (|requests| > |Rest(st, m)| ==> last.Some?)
  }

  predicate NonZero(requests: seq<int>) {
    forall i :: 0 <= i < |requests| ==> requests[i] != 0
  }

  lemma {:induction false} BodyDelivered(cfg: Config, st: State, m: Message, requests: seq<int>)
    requires Reading(cfg, st, m) && NonZero(requests)
    ensures Delivered(cfg, st, m, requests)
    decreases |requests|
  {
    hide Read, Reading, Rest, Valid;
    if requests != [] {
      Reads(cfg, st, m);
      var m1 := ReadStep(cfg, st, m, requests[0]);
      if Rest(st, m) != [] {
        var (st1, reply) := Read(cfg, st, requests[0]);
        BodyDelivered(cfg, st1, m1, requests[1..]);
        var (b, last, end) := Consume(cfg, st1, requests[1..]);
        assert Consume(cfg, st, requests) == (reply.bytes + b, last, end);
      }
    }
  }

  lemma Reads(cfg: Config, st: State, m: Message)
    requires Reading(cfg, st, m)
    ensures Valid(st)
  {
  }

  // ---------------------------------------------------------------- which limits are safe

  ghost predicate DeliversAll(cfg: Config) {
    forall st, m, requests :: Fits(cfg, st, m) && NonZero(requests) ==> Delivered(cfg, st, m, requests)
  }

  /** The limits alone decide it: every message within them is delivered exactly when one of the two keeps a chunk
      below 2 gigabytes. */
  lemma DeliversAllIff(cfg: Config)
    ensures DeliversAll(cfg) <==> cfg.maxChunkSize < 2048 || 0 <= cfg.maxBodySize < 2048
  {
    if cfg.maxChunkSize < 2048 || 0 <= cfg.maxBodySize < 2048 {
      forall st, m, requests | Fits(cfg, st, m) && NonZero(requests) ensures Delivered(cfg, st, m, requests) {
        LimitsKeepShort(cfg, st, m);
        BodyDelivered(cfg, st, m, requests);
      }
    } else {
      var n := 0x8000_0000;
      HugeChunkLost(cfg, seq(n, _ => 0x78));
    }
  }

  lemma LimitsKeepShort(cfg: Config, st: State, m: Message)
    requires Fits(cfg, st, m) && (cfg.maxChunkSize < 2048 || 0 <= cfg.maxBodySize < 2048)
    ensures Reading(cfg, st, m)
  {
    hide SizeLine, Wire;
    forall i | 0 <= i < |m.chunks| ensures Short(m.chunks[i]) {
      BodyWithin(m.chunks, i);
    }
  }

  lemma {:induction false} BodyWithin(chunks: seq<Chunk>, i: nat)
    requires i < |chunks|
    ensures |chunks[i].body| <= |Bodies(chunks)|
  {
    if i > 0 {
      BodyWithin(chunks[1..], i - 1);
    }
  }

  /** One chunk, of 2^31 bytes. */
  function HugeMessage(body: seq<Byte>): Message {
    Message([Chunk([], [0x38] + seq(7, _ => ZERO), [], body)], Chunk([], [ZERO], [], []), [], [])
  }

  lemma HugeFits(cfg: Config, body: seq<Byte>)
    requires |body| == 0x8000_0000 && 2048 <= cfg.maxChunkSize && !(0 <= cfg.maxBodySize < 2048)
    ensures Fits(cfg, State(Wire(HugeMessage(body)), None, 0, 0, []), HugeMessage(body))
    ensures Bodies(HugeMessage(body).chunks) == body
  {
    var zeros := seq(7, _ => ZERO);
    var size := [0x38] + zeros;
    assert size[1..] == zeros && Numeral(size, 0) == Numeral(zeros, 8);
    ZerosShift(zeros, 8);
    PowerValues();
    assert Numeral([ZERO], 0) == Numeral([], 0) == 0;
    var m := HugeMessage(body);
    assert m.chunks[1..] == [] && Bodies(m.chunks) == body + Bodies([]);
  }

  /** Two reads of it: a failure, or the end after too few bytes, however the bytes arrive. */
  lemma HugeChunkLost(cfg: Config, body: seq<Byte>)
    requires |body| == 0x8000_0000 && NoLineEnd(body)
    requires 2048 <= cfg.maxChunkSize && !(0 <= cfg.maxBodySize < 2048)
    ensures !DeliversAll(cfg)
  {
    hide Fetch, Wire, WellFormed, Delivered;
    var m, requests := HugeMessage(body), [-1, -1];
    var st := State(Wire(m), None, 0, 0, []);
    HugeFits(cfg, body);
    HugeFetched(cfg, st, m);
    TwoReads(cfg, st, m, requests);
    assert NonZero(requests);
  }

  ghost predicate CutShort(cfg: Config, st: State, size: nat)
    requires st.data.None? && st.pos == 0
  {
    var (st1, reply) := Fetch(cfg, st);
    || reply == Some(Failed)
    || (&& reply == None && st1.data.Some? && st1.pos == 0 && |st1.data.value| < size
        && Read(cfg, st1.(data := None), -1).1 == Ended)
  }

  lemma TwoReads(cfg: Config, st: State, m: Message, requests: seq<int>)
    requires Valid(st) && st.data.None? && requests == [-1, -1] && CutShort(cfg, st, |Bodies(m.chunks)|)
    ensures !Delivered(cfg, st, m, requests)
  {
    hide Fetch, Bodies;
    var (st1, reply) := Fetch(cfg, st);
    if reply.None? {
      var data, again := st1.data.value, requests[1..];
      assert data[0..|data|] == data;
      assert Read(cfg, st, -1) == TakeSlice(st1, -1) == (st1.(data := None), Data(data));
      assert again == [-1] && Consume(cfg, st1.(data := None), again).0 == [];
    }
  }

  lemma HugeFetched(cfg: Config, st: State, m: Message)
    requires Fits(cfg, st, m) && st.data.None? && |m.chunks| == 1 && !Short(m.chunks[0]) && NoLineEnd(m.chunks[0].body)
    ensures CutShort(cfg, st, |m.chunks[0].body|)
  {
    hide Fetch, ChunkData, Wire, SizeLine, WellFormed, Read;
    FetchFirst(cfg, st, m);
    WithoutFirst(cfg, m);
    var body, m1 := m.chunks[0].body, m.(chunks := m.chunks[1..]);
    PartOfData(cfg, SizeTaken(st, m), |body|);
    var st1 := HugeData(cfg, SizeTaken(st, m), body, Wire(m1));
    if Fetch(cfg, st).1.None? {
      var _ := ReadStep(cfg, st1.(data := None), m1, -1);
    }
  }

  lemma HugeData(cfg: Config, st: State, body: seq<Byte>, t: seq<Byte>) returns (st1: State)
    requires |body| > INT32_MAX && NoLineEnd(body) && st.wire == Line(body) + t && st.pos == 0
    ensures var r := ChunkData(cfg, st, |body|);
            || r.1 == Some(Failed)
            || (r == (st1, None) && st1 == st.(wire := t, data := st1.data) && st1.data.Some?)
  {
    hide ReadLine, ToInt32, ReadBytes, Line;
    ToInt32Exact(|body|);
    st1 := ChunkData(cfg, st, |body|).0;
    var (d, w) := ReadBytes(cfg, st.wire, ToInt32(|body|));
    var left := body[|Got(d)|..];
    assert w == Line(left) + t by { Leftover(Got(d), w, body, t); }
    if |left| > LINE_LIMIT {
      LongLine(left, t);
    } else {
      LineRead(left, t);
    }
  }

  lemma Leftover(got: seq<Byte>, w: seq<Byte>, body: seq<Byte>, t: seq<Byte>)
    requires got + w == Line(body) + t && |got| <= |body|
    ensures w == Line(body[|got|..]) + t
  {
    assert w == (got + w)[|got|..];
  }

  lemma LongLine(s: seq<Byte>, t: seq<Byte>)
    requires NoLineEnd(s) && |s| > LINE_LIMIT
    ensures ReadLine(Line(s) + t).None?
  {
    hide LineEnd;
    LineEndOf(s, t);
  }

  // ---------------------------------------------------------------- any input

  /** All data a consumer gets over any reads, also ones after a failure or the end. */
  ghost function AllData(cfg: Config, st: State, requests: seq<int>): (r: (seq<Byte>, State))
    requires Valid(st)
    decreases |requests|
  {
    if requests == [] then ([], st)
    else
      var (st1, reply) := Read(cfg, st, requests[0]);
      var (b, end) := AllData(cfg, st1, requests[1..]);
      ((if reply.Data? then reply.bytes else []) + b, end)
  }

  /** `got` bytes were handed out: with those in m_data they are within the sizes accepted and the limit. */
  ghost predicate Accounted(cfg: Config, st: State, got: nat) {
    && Valid(st) && got + |Unread(st)| <= st.contentLength
    && (cfg.maxBodySize >= 0 ==> got + |Unread(st)| <= cfg.maxBodySize * MEGABYTE)
  }

  lemma FetchAccounted(cfg: Config, st: State, got: nat)
    requires Accounted(cfg, st, got) && st.data.None?
    ensures Accounted(cfg, Fetch(cfg, st).0, got)
  {
    hide Numeral, ReadLine, IsXDigit, SkipSpace, TrailerPart, Int64, ToInt32, ReadBytes;
    var r := ReadLine(st.wire);
    if r.Some? {
      var s := SkipSpace(r.value.0);
      if s != [] && IsXDigit(s[0]) {
        var sz := Int64(Numeral(s, 0));
        if 0 < sz <= cfg.maxChunkSize * MEGABYTE {
          ToInt32Exact(sz);
          assert |Got(ReadBytes(cfg, r.value.1, ToInt32(sz)).0)| <= sz;
        }
      }
    }
  }

  lemma {:induction false} ReadAccounted(cfg: Config, st: State, bytes: int, got: nat)
    requires Accounted(cfg, st, got)
    ensures var (st1, reply) := Read(cfg, st, bytes);
            Accounted(cfg, st1, got + if reply.Data? then |reply.bytes| else 0)
    decreases |st.wire|, if st.data.None? then 1 else 0
  {
    hide Fetch;
    if st.data.None? {
      FetchAccounted(cfg, st, got);
      var (st1, reply) := Fetch(cfg, st);
      if reply.None? {
        ReadAccounted(cfg, st1, bytes, got);
      }
    }
  }

  /** For every input and every sequence of reads, well-formed or not: no more data than the body limit. */
  lemma {:induction false} LimitHolds(cfg: Config, st: State, requests: seq<int>, got: nat)
    requires Accounted(cfg, st, got)
    ensures Accounted(cfg, AllData(cfg, st, requests).1, got + |AllData(cfg, st, requests).0|)
    decreases |requests|
  {
    hide Read, Accounted, Valid;
    AccountedValid(cfg, st, got);
    if requests != [] {
      ReadAccounted(cfg, st, requests[0], got);
      var (st1, reply) := Read(cfg, st, requests[0]);
      LimitHolds(cfg, st1, requests[1..], got + if reply.Data? then |reply.bytes| else 0);
    }
  }

  lemma AccountedValid(cfg: Config, st: State, got: nat)
    requires Accounted(cfg, st, got)
    ensures Valid(st)
  {
  }

  function Power16(n: nat): nat { if n == 0 then 1 else 16 * Power16(n - 1) }

  lemma {:induction false} NumeralBound(s: seq<Byte>, v: nat)
    ensures Numeral(s, v) < (v + 1) * Power16(|s|)
  {
    if s != [] && IsXDigit(s[0]) {
      var h := Hex(s[0]);
      NumeralBound(s[1..], v * 16 + h);
      var p := Power16(|s| - 1);
      Monotone(v * 16 + h + 1, (v + 1) * 16, p);
      Regroup(v + 1, 16, p);
    } else {
      PowerPositive(|s|);
      Monotone(1, Power16(|s|), v + 1);
    }
  }

  lemma Monotone(a: nat, b: nat, c: nat)
    requires a <= b
    ensures a * c <= b * c
  {
  }

  lemma Regroup(a: nat, b: nat, c: nat)
    ensures a * b * c == a * (b * c)
  {
  }

  lemma {:induction false} PowerPositive(n: nat)
    ensures Power16(n) >= 1
  {
    if n > 0 {
      PowerPositive(n - 1);
    }
  }

  lemma PowerValues()
    ensures Power16(15) == 0x1000_0000_0000_0000 && Power16(16) == 0x1_0000_0000_0000_0000
  {
    assert Power16(1) == 0x10 && Power16(2) == 0x100;
    assert Power16(3) == 0x1000 && Power16(4) == 0x1_0000;
    assert Power16(5) == 0x10_0000 && Power16(6) == 0x100_0000;
    assert Power16(7) == 0x1000_0000 && Power16(8) == 0x1_0000_0000;
    assert Power16(9) == 0x10_0000_0000 && Power16(10) == 0x100_0000_0000;
    assert Power16(11) == 0x1000_0000_0000 && Power16(12) == 0x1_0000_0000_0000;
    assert Power16(13) == 0x10_0000_0000_0000 && Power16(14) == 0x100_0000_0000_0000;
  }

  /** A size of at most 15 digits is read as its value. */
  lemma ShortSizesAreExact(s: seq<Byte>)
    requires |s| <= 15
    ensures Int64(Numeral(s, 0)) == Numeral(s, 0)
  {
    NumeralBound(s, 0);
    PowerGrows(|s|, 15);
    PowerValues();
  }

  lemma {:induction false} PowerGrows(m: nat, n: nat)
    requires m <= n
    ensures Power16(m) <= Power16(n)
  {
    if m < n {
      PowerGrows(m, n - 1);
      PowerPositive(n - 1);
    }
  }

  /** A size is read as its value exactly below 2^63, and handed on as its value exactly below 2^31. */
  lemma SizeExactIff(s: seq<Byte>)
    ensures Int64(Numeral(s, 0)) == Numeral(s, 0) <==> Numeral(s, 0) < 0x8000_0000_0000_0000
    ensures ToInt32(Int64(Numeral(s, 0))) == Numeral(s, 0) <==> Numeral(s, 0) <= INT32_MAX
  {
    var v := Numeral(s, 0);
    Int64Exact(v);
    ToInt32Exact(v);
  }

  /** A '1' and sixteen zeros: a chunk of 2^64 bytes is read as the last chunk, and the body ends. */
  lemma WrappedSizeEndsBody(cfg: Config, st: State, zeros: seq<Byte>, tail: seq<Byte>)
    requires !cfg.trailers && st.data.None? && st.pos == 0
    requires zeros == seq(16, _ => ZERO) && st.wire == Line([0x31] + zeros) + (Line([]) + tail)
    ensures Numeral([0x31] + zeros, 0) == 0x1_0000_0000_0000_0000
    ensures Read(cfg, st, -1) == (st.(wire := tail), Ended)
  {
    hide ReadLine, Lines;
    var line := [0x31] + zeros;
    LineRead(line, Line([]) + tail);
    LineRead([], tail);
    OneAndZeros(line, zeros);
    PowerValues();
  }

  lemma OneAndZeros(line: seq<Byte>, zeros: seq<Byte>)
    requires line == [0x31] + zeros && forall k :: 0 <= k < |zeros| ==> zeros[k] == ZERO
    ensures Numeral(line, 0) == Power16(|zeros|) && SkipSpace(line) == line
  {
    assert line[1..] == zeros && line[0] == 0x31;
    assert Numeral(line, 0) == Numeral(zeros, 1);
    ZerosShift(zeros, 1);
  }

  /** A '1' and eight zeros: 2^32 is read as its value and then cut to no bytes at all, so that an empty chunk passes
      for one of 4 gigabytes. */
  lemma CutSizeEndsBody(cfg: Config, st: State, zeros: seq<Byte>, tail: seq<Byte>)
    requires !cfg.trailers && st.data.None? && st.pos == 0 && zeros == seq(8, _ => ZERO)
    requires 4096 <= cfg.maxChunkSize
    requires cfg.maxBodySize < 0 || st.contentLength + 0x1_0000_0000 <= cfg.maxBodySize * MEGABYTE
    requires st.wire == Line([0x31] + zeros) + (Line([]) + (Line([ZERO]) + (Line([]) + tail)))
    ensures Int64(Numeral([0x31] + zeros, 0)) == Numeral([0x31] + zeros, 0) == 0x1_0000_0000
    ensures Read(cfg, st, -1) == (st.(wire := tail, contentLength := st.contentLength + 0x1_0000_0000), Ended)
  {
    hide ReadLine, Line, Fetch, ChunkData, SkipSpace;
    var line, last, n := [0x31] + zeros, Line([ZERO]) + (Line([]) + tail), 0x1_0000_0000;
    CutSize(line, zeros);
    Int64Exact(n);
    LineRead(line, Line([]) + last);
    SizeAccepted(cfg, st, line, line, Line([]) + last, n);
    ReadCut(cfg, st, st.(wire := Line([]) + last, contentLength := st.contentLength + n), tail, n);
  }

  lemma ReadCut(cfg: Config, st: State, st1: State, tail: seq<Byte>, n: nat)
    requires !cfg.trailers && st.data.None? && st.pos == 0 && st1.data.None? && st1.pos == 0
    requires st1.wire == Line([]) + (Line([ZERO]) + (Line([]) + tail))
    requires n == 0x1_0000_0000 && Fetch(cfg, st) == ChunkData(cfg, st1, n)
    ensures Read(cfg, st, -1) == (st1.(wire := tail), Ended)
  {
    hide Line, Fetch, ChunkData;
    var last := Line([ZERO]) + (Line([]) + tail);
    NoData(cfg, st1, last, n);
    LastRead(cfg, st1.(wire := last), tail);
  }

  lemma CutSize(line: seq<Byte>, zeros: seq<Byte>)
    requires line == [0x31] + zeros && zeros == seq(8, _ => ZERO)
    ensures NoLineEnd(line) && |line| <= LINE_LIMIT && IsXDigit(line[0])
    ensures SkipSpace(line) == line && Numeral(line, 0) == 0x1_0000_0000
  {
    OneAndZeros(line, zeros);
    PowerValues();
  }

  lemma NoData(cfg: Config, st: State, t: seq<Byte>, n: nat)
    requires st.data.None? && st.pos == 0 && st.wire == Line([]) + t && n == 0x1_0000_0000
    ensures ChunkData(cfg, st, n) == (st.(wire := t), None)
  {
    hide ReadLine;
    LineRead([], t);
    assert st.wire[0..] == st.wire;
  }

  lemma LastRead(cfg: Config, st: State, tail: seq<Byte>)
    requires !cfg.trailers && st.data.None? && st.pos == 0 && st.wire == Line([ZERO]) + (Line([]) + tail)
    ensures Fetch(cfg, st) == (st.(wire := tail), Some(Ended))
  {
    hide ReadLine, Line, TrailerPart;
    LineRead([ZERO], Line([]) + tail);
    LineRead([], tail);
    NoTrailers(cfg, st.(wire := tail), []);
    assert Numeral([ZERO], 0) == Numeral([], 0) == 0 && SkipSpace([ZERO]) == [ZERO];
  }

  lemma {:induction false} ZerosShift(zeros: seq<Byte>, v: nat)
    requires forall k :: 0 <= k < |zeros| ==> zeros[k] == ZERO
    ensures Numeral(zeros, v) == v * Power16(|zeros|)
  {
    if zeros != [] {
      ZerosShift(zeros[1..], v * 16);
      assert v * 16 * Power16(|zeros| - 1) == v * (16 * Power16(|zeros| - 1));
    }
  }
}
