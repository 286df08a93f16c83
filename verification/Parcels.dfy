/**
 A message parcel as a stream of typed tokens with a read cursor. Writing appends; a read takes the
 next token when it has the asked type and otherwise fails, moving nothing.
 */
module Parcels {
  import opened Machine
  import opened Wrappers

  /** The contents of an AVSessionPixelMap. */
  type Image = seq<bv8>

  datatype Token =
    | Str(s: string)
    | I32(i: Int32)
    | I64(l: Int64)
    | Dbl(d: DoubleBits)
    | Icon(image: Option<Image>)
    | Raw(bytes: seq<bv8>)

  class Parcel {
    var tokens: seq<Token>
    var cursor: nat

    constructor ()
      ensures tokens == [] && cursor == 0
    {
      tokens, cursor := [], 0;
    }

    method Write(t: Token)
      modifies `tokens
      ensures tokens == old(tokens) + [t]
    {
      tokens := tokens + [t];
    }

    method ReadString(was: string) returns (ok: bool, s: string)
      modifies `cursor
      ensures ok == (old(cursor) < |tokens| && tokens[old(cursor)].Str?)
      ensures s == if ok then tokens[old(cursor)].s else was
      ensures cursor == old(cursor) + (if ok then 1 else 0)
    {
      ok, s := cursor < |tokens| && tokens[cursor].Str?, was;
      if ok { s, cursor := tokens[cursor].s, cursor + 1; }
    }

    method ReadInt32(was: Int32) returns (ok: bool, i: Int32)
      modifies `cursor
      ensures ok == (old(cursor) < |tokens| && tokens[old(cursor)].I32?)
      ensures i == if ok then tokens[old(cursor)].i else was
      ensures cursor == old(cursor) + (if ok then 1 else 0)
    {
      ok, i := cursor < |tokens| && tokens[cursor].I32?, was;
      if ok { i, cursor := tokens[cursor].i, cursor + 1; }
    }

    method ReadInt64(was: Int64) returns (ok: bool, l: Int64)
      modifies `cursor
      ensures ok == (old(cursor) < |tokens| && tokens[old(cursor)].I64?)
      ensures l == if ok then tokens[old(cursor)].l else was
      ensures cursor == old(cursor) + (if ok then 1 else 0)
    {
      ok, l := cursor < |tokens| && tokens[cursor].I64?, was;
      if ok { l, cursor := tokens[cursor].l, cursor + 1; }
    }

    method ReadDouble(was: DoubleBits) returns (ok: bool, d: DoubleBits)
      modifies `cursor
      ensures ok == (old(cursor) < |tokens| && tokens[old(cursor)].Dbl?)
      ensures d == if ok then tokens[old(cursor)].d else was
      ensures cursor == old(cursor) + (if ok then 1 else 0)
    {
      ok, d := cursor < |tokens| && tokens[cursor].Dbl?, was;
      if ok { d, cursor := tokens[cursor].d, cursor + 1; }
    }

    /** A parcelable that is missing or was written as null comes back as null. */
    method ReadParcelable() returns (image: Option<Image>)
      modifies `cursor
      ensures var there := old(cursor) < |tokens| && tokens[old(cursor)].Icon?;
              image == (if there then tokens[old(cursor)].image else None)
              && cursor == old(cursor) + (if there then 1 else 0)
    {
      image := None;
      if cursor < |tokens| && tokens[cursor].Icon? { image, cursor := tokens[cursor].image, cursor + 1; }
    }

    /** Raw data is only given back at the size it was written with. */
    method ReadRawData(size: nat) returns (bytes: Option<seq<bv8>>)
      modifies `cursor
      ensures var there := old(cursor) < |tokens| && tokens[old(cursor)].Raw? && |tokens[old(cursor)].bytes| == size;
              bytes == if there then Some(tokens[old(cursor)].bytes) else None
      ensures cursor == old(cursor) + (if bytes.Some? then 1 else 0)
    {
      bytes := None;
      if cursor < |tokens| && tokens[cursor].Raw? && |tokens[cursor].bytes| == size {
        bytes, cursor := Some(tokens[cursor].bytes), cursor + 1;
      }
    }
  }
}
