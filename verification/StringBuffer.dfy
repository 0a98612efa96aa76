/** `StringBuffer`: text collected as pieces in a `QuickArray` (fibjs/include/StringBuffer.h:25-114). */
module StringBuffers {
  import opened QuickArrays

  function Joined(pieces: seq<string>): string {
    if pieces == [] then "" else Joined(pieces[..|pieces| - 1]) + pieces[|pieces| - 1]
  }

  lemma JoinedMore(pieces: seq<string>, s: string)
    ensures Joined(pieces + [s]) == Joined(pieces) + s
  {
    assert (pieces + [s])[..|pieces|] == pieces;
  }

  lemma {:induction false} JoinedPrefix(pieces: seq<string>, i: nat)
    requires i <= |pieces|
    ensures Joined(pieces[..i]) <= Joined(pieces)
  {
    if i < |pieces| {
      var rest := pieces[..|pieces| - 1];
      JoinedPrefix(rest, i);
      assert rest[..i] == pieces[..i];
    } else {
      assert pieces[..i] == pieces;
    }
  }

  /** No piece is empty, so nothing collected means no pieces. */
  lemma {:induction false} PiecesAndLength(pieces: seq<string>)
    requires forall i :: 0 <= i < |pieces| ==> pieces[i] != ""
    ensures |Joined(pieces)| >= |pieces| && (pieces == [] ==> Joined(pieces) == "")
  {
    if pieces != [] {
      PiecesAndLength(pieces[..|pieces| - 1]);
    }
  }

  function WithLast(pieces: seq<string>, ch: char): seq<string>
    requires pieces != []
  {
    pieces[|pieces| - 1 := pieces[|pieces| - 1] + [ch]]
  }

  lemma LastGrows(pieces: seq<string>, ch: char)
    requires pieces != []
    ensures Joined(WithLast(pieces, ch)) == Joined(pieces) + [ch]
  {
    var front, last := pieces[..|pieces| - 1], pieces[|pieces| - 1];
    assert pieces == front + [last] && WithLast(pieces, ch) == front + [last + [ch]];
    JoinedMore(front, last);
    JoinedMore(front, last + [ch]);
  }

  class StringBuffer {
    const pieces: QuickArray<string>   // m_array
    var size: nat                      // m_size

    ghost predicate Valid()
      reads this, pieces, pieces.blocks
    {
      && pieces.Valid() && pieces.fill == ""
      && size == |Joined(pieces.Contents())|
      && forall i :: 0 <= i < |pieces.Contents()| ==> pieces.Contents()[i] != ""
    }

    /** Everything appended since the last `str` or `buffer`. */
    ghost function Text(): string
      requires Valid()
      reads this, pieces, pieces.blocks
    {
      Joined(pieces.Contents())
    }

    constructor (blockSize: nat)
      requires blockSize > 0
      ensures Valid() && Text() == "" && fresh(pieces) && pieces.blocks == []
    {
      pieces := new QuickArray<string>(blockSize, "");
      size := 0;
    }

    method Append(s: string)
      requires Valid()
      modifies this, pieces, pieces.blocks
      ensures Valid() && Text() == old(Text()) + s && size == old(size) + |s|
      ensures forall p :: 0 <= p < |pieces.blocks| ==> pieces.blocks[p] in old(pieces.blocks) || fresh(pieces.blocks[p])
    {
      if |s| > 0 {
        JoinedMore(pieces.Contents(), s);
        size := size + |s|;
        pieces.AppendAll([s]);
      } else {
        assert forall p :: 0 <= p < |pieces.blocks| ==> pieces.blocks[p] in pieces.blocks;
      }
    }

    /** `append(const char*, sz)`: a negative size means up to the terminating zero. */
    method AppendChars(s: string, sz: int)
      requires Valid() && sz <= |s|
      modifies this, pieces, pieces.blocks
      ensures Valid() && Text() == old(Text()) + s[..if sz < 0 then StringLength(s) else sz]
    {
      var n := if sz < 0 then StringLength(s) else sz;
      Append(s[..n]);
    }

    method AppendChar(ch: char)
      requires Valid()
      modifies this, pieces, pieces.blocks
      ensures Valid() && Text() == old(Text()) + [ch] && size == old(size) + 1
    {
      hide Joined, QuickArray.Valid, QuickArray.Contents;
      PiecesAndLength(pieces.Contents());
      if size == 0 {
        pieces.Resize(1);
        JoinedMore([], "");
        PiecesAndLength([]);
        assert pieces.Contents() == [] + [""];
      }
      LastGrows(pieces.Contents(), ch);
      ExtendLast(ch);
      size := size + 1;
    }

    method ExtendLast(ch: char)
      requires pieces.Valid() && pieces.size > 0
      modifies pieces, pieces.blocks
      ensures pieces.Valid() && pieces.size == old(pieces.size)
      ensures pieces.Contents() == WithLast(old(pieces.Contents()), ch)
    {
      hide QuickArray.Valid, QuickArray.Contents;
      var last := pieces.Get(pieces.size - 1);
      pieces.Set(pieces.size - 1, last + [ch]);
    }

    /** `str`, and `buffer` likewise: the text, copied piece by piece, and the buffer empty again. */
    method Str() returns (s: string)
      requires Valid()
      modifies this, pieces, pieces.blocks
      ensures Valid() && s == old(Text()) && Text() == "" && size == 0
    {
      hide Joined, QuickArray.Valid, QuickArray.Contents;
      s := "";
      PiecesAndLength([]);
      ghost var all := pieces.Contents();
      PiecesAndLength(all);
      if size > 0 {
        if pieces.size == 1 {
          s := pieces.Get(0);
          assert all == [] + [s];
          JoinedMore([], s);
        } else {
          s := CopyPieces();
        }
        size := 0;
        pieces.Resize(0);
      }
    }

    method CopyPieces() returns (s: string)
      requires Valid()
      modifies pieces, pieces.blocks
      ensures Valid() && s == old(Text()) && pieces.Contents() == old(pieces.Contents())
      ensures forall p :: 0 <= p < |pieces.blocks| ==> pieces.blocks[p] in old(pieces.blocks) || fresh(pieces.blocks[p])
    {
      hide Joined, QuickArray.Valid, QuickArray.Contents;
      ghost var all := pieces.Contents();
      var text := new char[size](_ => ' ');
      var p, i := 0, 0;
      assert all[..0] == [];
      PiecesAndLength(all[..0]);
      assert forall b :: 0 <= b < |pieces.blocks| ==> pieces.blocks[b] in pieces.blocks;
      while i < pieces.size
        invariant pieces.Valid() && pieces.Contents() == all && i <= pieces.size == |all|
        invariant forall b :: 0 <= b < |pieces.blocks| ==>
                    pieces.blocks[b] in old(pieces.blocks) || fresh(pieces.blocks[b])
        invariant p == |Joined(all[..i])| <= text.Length && text[..p] == Joined(all[..i])
      {
        var piece := pieces.Get(i);
        assert all[..i + 1] == all[..i] + [piece];
        JoinedMore(all[..i], piece);
        JoinedPrefix(all, i + 1);
        forall k | 0 <= k < |piece| {
          text[p + k] := piece[k];
        }
        p := p + |piece|;
        i := i + 1;
      }
      assert all[..i] == all;
      s := text[..];
    }
  }

  /** `qstrlen`. */
  function StringLength(s: string): (n: nat)
    ensures n <= |s| && (n < |s| ==> s[n] == '\0') && forall k :: 0 <= k < n ==> s[k] != '\0'
  {
    if s == "" || s[0] == '\0' then 0 else StringLength(s[1..]) + 1
  }
}
