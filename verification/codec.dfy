/** The float32 vector <-> byte blob codec: `ndarray.astype(np.float32).tobytes()`
    and `np.frombuffer(blob, dtype=np.float32)`. A float32 value is kept as its
    32-bit pattern, so the codec is about words and bytes only; the byte order
    is little-endian, the native order numpy uses on the usual platforms. */
module Codec {
  import opened Wrappers

  type Byte = bv8
  type Word = bv32

  /** Width of one float32 in bytes. */
  const WordSize: nat := 4

  /** `np.frombuffer` refuses a buffer whose size is not a multiple of the element size. */
  datatype CodecError = BufferSizeNotMultiple(size: nat)

  /** The four bytes of one word, least significant first. */
  function EncodeWord(w: Word): (r: seq<Byte>)
    ensures |r| == WordSize
  {
    [(w & 0xFF) as Byte, ((w >> 8) & 0xFF) as Byte, ((w >> 16) & 0xFF) as Byte, ((w >> 24) & 0xFF) as Byte]
  }

  function DecodeWord(b0: Byte, b1: Byte, b2: Byte, b3: Byte): Word {
    (b0 as Word) | ((b1 as Word) << 8) | ((b2 as Word) << 16) | ((b3 as Word) << 24)
  }

  lemma DecodeEncodeWord(w: Word)
    ensures var b := EncodeWord(w); DecodeWord(b[0], b[1], b[2], b[3]) == w
  {
  }

  lemma EncodeDecodeWord(b0: Byte, b1: Byte, b2: Byte, b3: Byte)
    ensures EncodeWord(DecodeWord(b0, b1, b2, b3)) == [b0, b1, b2, b3]
  {
  }

  /** `tobytes()`: the words' bytes, one word after the other. */
  function Encode(ws: seq<Word>): (r: seq<Byte>)
    ensures |r| == WordSize * |ws|
    decreases |ws|
  {
    if |ws| == 0 then [] else EncodeWord(ws[0]) + Encode(ws[1..])
  }

  /** Word `i` of the vector sits at bytes `4i .. 4i+3` of the blob, least
      significant byte first. */
  lemma {:induction false} EncodeLayout(ws: seq<Word>)
    ensures forall i :: 0 <= i < |ws| ==>
              Encode(ws)[WordSize * i..WordSize * i + WordSize] == EncodeWord(ws[i])
    decreases |ws|
  {
    if |ws| > 0 {
      var bs := Encode(ws);
      var tail := Encode(ws[1..]);
      EncodeLayout(ws[1..]);
      assert bs == EncodeWord(ws[0]) + tail;
      forall i | 0 <= i < |ws| ensures bs[WordSize * i..WordSize * i + WordSize] == EncodeWord(ws[i]) {
        if i > 0 {
          var j := i - 1;
          assert WordSize * i == WordSize * j + WordSize;
          assert bs[WordSize * i..WordSize * i + WordSize] == tail[WordSize * j..WordSize * j + WordSize];
          assert ws[i] == ws[1..][j];
        }
      }
    }
  }

  function DecodeWords(bs: seq<Byte>): (r: seq<Word>)
    requires |bs| % WordSize == 0
    ensures WordSize * |r| == |bs|
    decreases |bs|
  {
    if |bs| == 0 then []
    else [DecodeWord(bs[0], bs[1], bs[2], bs[3])] + DecodeWords(bs[WordSize..])
  }

  /** `np.frombuffer(bs, dtype=np.float32)`. */
  function Decode(bs: seq<Byte>): (r: Result<seq<Word>, CodecError>)
    ensures r.Err? <==> |bs| % WordSize != 0
    ensures r.Err? ==> r.error == BufferSizeNotMultiple(|bs|)
    ensures r.Ok? ==> WordSize * |r.value| == |bs|
  {
    if |bs| % WordSize != 0 then Err(BufferSizeNotMultiple(|bs|)) else Ok(DecodeWords(bs))
  }

  /** Decoding an encoding gives back the same words, bit for bit. */
  lemma {:induction false} DecodeEncode(ws: seq<Word>)
    ensures Decode(Encode(ws)) == Ok(ws)
    decreases |ws|
  {
    if |ws| > 0 {
      var bs := Encode(ws);
      var e := EncodeWord(ws[0]);
      assert bs[0] == e[0] && bs[1] == e[1] && bs[2] == e[2] && bs[3] == e[3];
      assert bs[WordSize..] == Encode(ws[1..]);
      DecodeEncode(ws[1..]);
      DecodeEncodeWord(ws[0]);
      assert DecodeWords(bs) == [ws[0]] + DecodeWords(Encode(ws[1..]));
      assert ws == [ws[0]] + ws[1..];
    }
  }

  /** A blob that decodes is the encoding of what it decodes to. */
  lemma {:induction false} EncodeDecode(bs: seq<Byte>)
    requires Decode(bs).Ok?
    ensures Encode(Decode(bs).value) == bs
    decreases |bs|
  {
    if |bs| > 0 {
      var ws := Decode(bs).value;
      EncodeDecode(bs[WordSize..]);
      EncodeDecodeWord(bs[0], bs[1], bs[2], bs[3]);
      assert ws[1..] == Decode(bs[WordSize..]).value;
      assert bs == bs[..WordSize] + bs[WordSize..];
    }
  }
}
