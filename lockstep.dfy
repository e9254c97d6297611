/**
 * The lockstep stream, seen abstractly. The transport and its compact wire
 * encoding (small unsigned integers, strings, packed flag bits) are not part
 * of this model: a stream is a sequence of tokens, one per `Write*` call, and
 * a read position that the `Read*` calls advance.
 */
module Lockstep {
  datatype Token =
    | UInt(n: nat)            // WriteSmallUInt
    | Str(s: string)          // WriteString
    | Flags(bits: seq<bool>)  // WriteFlags, all bits of one call

  class LockstepStream {
    var tokens: seq<Token>
    var readPosition: nat

    constructor (tokens: seq<Token>)
      ensures this.tokens == tokens && readPosition == 0
    {
      this.tokens := tokens;
      readPosition := 0;
    }

    /** The tokens not read yet. */
    function Unread(): (rest: seq<Token>)
      reads this
      ensures readPosition <= |tokens| ==> tokens == tokens[..readPosition] + rest
      ensures readPosition > |tokens| ==> rest == []
    {
      if readPosition <= |tokens| then tokens[readPosition..] else []
    }

    method WriteSmallUInt(n: nat)
      modifies this`tokens
      ensures tokens == old(tokens) + [UInt(n)] && readPosition == old(readPosition)
    {
      tokens := tokens + [UInt(n)];
    }

    method WriteString(s: string)
      modifies this`tokens
      ensures tokens == old(tokens) + [Str(s)] && readPosition == old(readPosition)
    {
      tokens := tokens + [Str(s)];
    }

    method WriteFlags(bits: seq<bool>)
      modifies this`tokens
      ensures tokens == old(tokens) + [Flags(bits)] && readPosition == old(readPosition)
    {
      tokens := tokens + [Flags(bits)];
    }

    method ReadSmallUInt() returns (n: nat)
      requires readPosition < |tokens| && tokens[readPosition].UInt?
      modifies this`readPosition
      ensures tokens == old(tokens) && readPosition == old(readPosition) + 1
      ensures UInt(n) == tokens[old(readPosition)]
    {
      n := tokens[readPosition].n;
      readPosition := readPosition + 1;
    }

    method ReadString() returns (s: string)
      requires readPosition < |tokens| && tokens[readPosition].Str?
      modifies this`readPosition
      ensures tokens == old(tokens) && readPosition == old(readPosition) + 1
      ensures Str(s) == tokens[old(readPosition)]
    {
      s := tokens[readPosition].s;
      readPosition := readPosition + 1;
    }

    /** Reads `count` flags, as many as the matching `WriteFlags` call wrote. */
    method ReadFlags(count: nat) returns (bits: seq<bool>)
      requires readPosition < |tokens| && tokens[readPosition].Flags?
      requires |tokens[readPosition].bits| == count
      modifies this`readPosition
      ensures tokens == old(tokens) && readPosition == old(readPosition) + 1
      ensures Flags(bits) == tokens[old(readPosition)] && |bits| == count
    {
      bits := tokens[readPosition].bits;
      readPosition := readPosition + 1;
    }
  }
}
