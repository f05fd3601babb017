/**
  The three wire forms of a mining job (bridge/src/hasher.rs) and the reference miner's
  decoder of the legacy form (bridge/examples/cpu_stratum_miner.rs, `parse_notify`).
 */
module JobEncoding {
  import opened Wrappers
  import opened Hex

  lemma Pow256Of8()
    ensures Pow256(8) == 0x1_0000_0000_0000_0000
  {
    assert Pow256(4) == 256 * 256 * 256 * 256;
    assert Pow256(6) == 256 * 256 * Pow256(4);
  }

  function BeBytes(v: U64): (bs: seq<Byte>)
    ensures |bs| == 8
  {
    Pow256Of8();
    ToBe(v, 8)
  }

  function LeBytes(v: U64): (bs: seq<Byte>)
    ensures |bs| == 8
  {
    Reverse(BeBytes(v))
  }

  function BeWord(bs: seq<Byte>): U64
    requires |bs| == 8
  {
    Pow256Of8();
    FromBe(bs)
  }

  function LeWord(bs: seq<Byte>): U64
    requires |bs| == 8
  {
    BeWord(Reverse(bs))
  }

  lemma ReverseTwice<T>(s: seq<T>)
    ensures Reverse(Reverse(s)) == s
  {
  }

  lemma BytesOfWord(bs: seq<Byte>)
    requires |bs| == 8
    ensures BeBytes(BeWord(bs)) == bs && LeBytes(LeWord(bs)) == bs
  {
    ToBeFromBe(bs);
    ToBeFromBe(Reverse(bs));
    ReverseTwice(bs);
  }

  lemma WordOfBytes(v: U64)
    ensures BeWord(BeBytes(v)) == v && LeWord(LeBytes(v)) == v
  {
    Pow256Of8();
    FromBeToBe(v, 8);
    ReverseTwice(BeBytes(v));
  }

  /** Little-endian means the lowest byte first, in both directions. */
  lemma LittleEndian(v: U64, bs: seq<Byte>, i: nat)
    requires |bs| == 8 && i < 8
    ensures LeBytes(v)[i] == ByteAt(v, i) && BeBytes(v)[7 - i] == ByteAt(v, i)
    ensures ByteAt(LeWord(bs), i) == bs[i] && ByteAt(BeWord(bs), i) == bs[7 - i]
  {
    Pow256Of8();
    BytesOfWord(bs);
    ToBeAt(v, 8, i);
    ToBeAt(LeWord(bs), 8, i);
    ToBeAt(BeWord(bs), 8, i);
  }

  // ---------- single-string forms ----------

  /** IceRiver: the hash in hex, then the timestamp's little-endian bytes in hex. */
  function IceriverJobParams(hash: seq<Byte>, timestamp: U64): string
    requires |hash| == 32
  {
    Encode(hash) + Encode(LeBytes(timestamp))
  }

  /**
    The 80 characters: two lower-case digits for each byte of the hash in order, then two for each
    byte of the timestamp, lowest byte first.
   */
  lemma JobStringDigits(hash: seq<Byte>, timestamp: U64)
    requires |hash| == 32
    ensures var s, hex := IceriverJobParams(hash, timestamp), "0123456789abcdef";
            && |s| == 80
            && (forall k :: 0 <= k < 32 ==> s[2 * k] == hex[hash[k] / 16] && s[2 * k + 1] == hex[hash[k] % 16])
            && (forall k :: 0 <= k < 8 ==> var b := ByteAt(timestamp, k);
                                           s[64 + 2 * k] == hex[b / 16] && s[64 + 2 * k + 1] == hex[b % 16])
  {
    var le := LeBytes(timestamp);
    var first, second := Encode(hash), Encode(le);
    var s, hex := IceriverJobParams(hash, timestamp), "0123456789abcdef";
    forall k | 0 <= k < 32
      ensures s[2 * k] == hex[hash[k] / 16] && s[2 * k + 1] == hex[hash[k] % 16]
    {
      EncodeAt(hash, k);
      assert s[2 * k] == first[2 * k] && s[2 * k + 1] == first[2 * k + 1];
    }
    forall k | 0 <= k < 8
      ensures var b := ByteAt(timestamp, k); s[64 + 2 * k] == hex[b / 16] && s[64 + 2 * k + 1] == hex[b % 16]
    {
      EncodeAt(le, k);
      LittleEndian(timestamp, le, k);
      assert s[64 + 2 * k] == second[2 * k] && s[64 + 2 * k + 1] == second[2 * k + 1];
    }
  }

  lemma {:induction false} EncodeConcat(a: seq<Byte>, b: seq<Byte>)
    ensures Encode(a + b) == Encode(a) + Encode(b)
  {
    if b == [] {
      assert a + b == a;
    } else {
      EncodeConcat(a, b[..|b| - 1]);
      assert (a + b)[..|a + b| - 1] == a + b[..|b| - 1];
    }
  }

  /** A byte-swapped timestamp printed as a word shows the little-endian bytes. */
  lemma SwappedTimestamp(timestamp: U64)
    ensures Padded(LeWord(BeBytes(timestamp)), 16) == Encode(LeBytes(timestamp))
  {
    WordHex(LeBytes(timestamp));
  }

  /** The words the BzMiner loop has collected after `n` rounds. */
  function WordsHex(data: seq<Byte>, n: nat): string
    requires 8 * n <= |data|
  {
    if n == 0 then "" else WordsHex(data, n - 1) + Padded(BeWord(data[8 * n - 8..8 * n]), 16)
  }

  lemma WordHex(word: seq<Byte>)
    requires |word| == 8
    ensures Padded(BeWord(word), 16) == Encode(word)
  {
    PaddedIsEncode(word);
  }

  lemma {:induction false} WordsHexIsEncode(data: seq<Byte>, n: nat)
    requires 8 * n <= |data|
    ensures WordsHex(data, n) == Encode(data[..8 * n])
  {
    if n > 0 {
      var word := data[8 * n - 8..8 * n];
      WordsHexIsEncode(data, n - 1);
      WordHex(word);
      EncodeConcat(data[..8 * n - 8], word);
      assert data[..8 * n - 8] + word == data[..8 * n];
    }
  }

  /**
    BzMiner: five words in hex. Indexing five words needs at least 32 bytes of header data.
    The string is the IceRiver one.
   */
  method GenerateLargeJobParams(headerData: seq<Byte>, timestamp: U64) returns (r: string)
    requires |headerData| >= 32
    ensures r == IceriverJobParams(headerData[..32], timestamp) && |r| == 80
  {
    var ids: seq<U64> := [];
    for i := 0 to 4
      invariant |ids| == i
      invariant forall k :: 0 <= k < i ==> ids[k] == BeWord(headerData[8 * k..8 * k + 8])
    {
      var offset := i * 8;
      if offset + 8 <= |headerData| {
        ids := ids + [BeWord(headerData[offset..offset + 8])];
      }
    }
    ids := ids + [LeWord(BeBytes(timestamp))];
    WordsHexIsEncode(headerData, 4);
    FourWords(headerData);
    SwappedTimestamp(timestamp);
    r := Padded(ids[0], 16) + Padded(ids[1], 16) + Padded(ids[2], 16) + Padded(ids[3], 16) + Padded(ids[4], 16);
  }

  lemma OneMoreWord(data: seq<Byte>, n: nat, from: nat, to: nat)
    requires 0 < n && from == 8 * n - 8 && to == from + 8 <= |data|
    ensures WordsHex(data, n) == WordsHex(data, n - 1) + Padded(BeWord(data[from..to]), 16)
  {
  }

  lemma FourWords(data: seq<Byte>)
    requires |data| >= 32
    ensures WordsHex(data, 4) == Padded(BeWord(data[0..8]), 16) + Padded(BeWord(data[8..16]), 16) +
                                 Padded(BeWord(data[16..24]), 16) + Padded(BeWord(data[24..32]), 16)
  {
    OneMoreWord(data, 1, 0, 8);
    OneMoreWord(data, 2, 8, 16);
    OneMoreWord(data, 3, 16, 24);
    OneMoreWord(data, 4, 24, 32);
    Joins(WordsHex(data, 0), WordsHex(data, 1), Padded(BeWord(data[0..8]), 16));
  }

  lemma Joins(empty: string, whole: string, word: string)
    requires empty == "" && whole == empty + word
    ensures whole == word
  {
  }

  /** Two jobs with the same 80 characters are the same job. */
  lemma JobStringInjective(h1: seq<Byte>, t1: U64, h2: seq<Byte>, t2: U64)
    requires |h1| == |h2| == 32 && IceriverJobParams(h1, t1) == IceriverJobParams(h2, t2)
    ensures h1 == h2 && t1 == t2
  {
    var s1, s2 := IceriverJobParams(h1, t1), IceriverJobParams(h2, t2);
    assert s1[..64] == Encode(h1) && s2[..64] == Encode(h2);
    assert s1[64..] == Encode(LeBytes(t1)) && s2[64..] == Encode(LeBytes(t2));
    EncodeInjective(h1, h2);
    EncodeInjective(LeBytes(t1), LeBytes(t2));
    WordOfBytes(t1);
    WordOfBytes(t2);
  }

  // ---------- the legacy form and its decoder ----------

  /** The little-endian word of chunk `i`, if the chunk is complete. */
  function LeChunk(data: seq<Byte>, i: nat): (ws: seq<U64>)
    ensures |ws| == if 8 * i + 8 <= |data| then 1 else 0
  {
    if 8 * i + 8 <= |data| then [LeWord(data[8 * i..8 * i + 8])] else []
  }

  /** The little-endian words of the complete 8-byte chunks among the first `n`. */
  function LeWords(data: seq<Byte>, n: nat): seq<U64> {
    if n == 0 then [] else LeWords(data, n - 1) + LeChunk(data, n - 1)
  }

  method GenerateJobHeader(headerData: seq<Byte>) returns (ids: seq<U64>)
    ensures ids == LeWords(headerData, 4)
    ensures |headerData| >= 32 ==> |ids| == 4
  {
    ids := [];
    for i := 0 to 4
      invariant ids == LeWords(headerData, i)
      invariant |headerData| >= 32 ==> |ids| == i
    {
      var offset := i * 8;
      if offset + 8 <= |headerData| {
        ids := ids + [LeWord(headerData[offset..offset + 8])];
      }
    }
  }

  /** A 32-byte hash becomes four words whose bytes, lowest first, are the hash. */
  lemma HeaderWords(hash: seq<Byte>, i: nat, b: nat)
    requires |hash| >= 32 && i < 4 && b < 8
    ensures |LeWords(hash, 4)| == 4 && ByteAt(LeWords(hash, 4)[i], b) == hash[8 * i + b]
  {
    LeWordsAt(hash, 4);
    var chunk := hash[8 * i..8 * i + 8];
    assert LeChunk(hash, i) == [LeWord(chunk)];
    LittleEndian(0, chunk, b);
    assert chunk[b] == hash[8 * i + b];
  }

  datatype Json = Num(n: int) | Str(s: string) | Arr(items: seq<Json>) | Other

  function AsU64(j: Json): Option<U64> {
    if j.Num? && 0 <= j.n < 0x1_0000_0000_0000_0000 then Some(j.n) else None
  }

  datatype Job = Job(jobId: string, prePowHash: seq<Byte>, timestamp: U64)

  /** The bytes of the first `n` chunks, if all of them are 64-bit words. */
  function ChunkBytes(chunks: seq<Json>, n: nat): (r: Option<seq<Byte>>)
    requires n <= |chunks|
    ensures r.Some? ==> |r.value| == 8 * n
  {
    if n == 0 then Some([])
    else match (ChunkBytes(chunks, n - 1), AsU64(chunks[n - 1]))
         case (Some(bs), Some(v)) => Some(bs + LeBytes(v))
         case _ => None
  }

  /** What a `mining.notify` parameter list means to the miner. */
  function Decoded(params: seq<Json>): Option<Job> {
    if |params| < 3 || !params[0].Str? || !params[1].Arr? || |params[1].items| < 4 then None
    else match (ChunkBytes(params[1].items, 4), AsU64(params[2]))
         case (Some(bs), Some(t)) => Some(Job(params[0].s, bs, t))
         case _ => None
  }

  lemma {:induction false} ChunkBytesFail(chunks: seq<Json>, i: nat, n: nat)
    requires i < n <= |chunks| && AsU64(chunks[i]).None?
    ensures ChunkBytes(chunks, n).None?
  {
    if i < n - 1 {
      ChunkBytesFail(chunks, i, n - 1);
    }
  }

  predicate IsWord(j: Json) {
    j.Num? && 0 <= j.n < 0x1_0000_0000_0000_0000
  }

  lemma {:induction false} ChunkBytesAre(chunks: seq<Json>, n: nat)
    requires n <= |chunks|
    ensures ChunkBytes(chunks, n).Some? <==> forall i :: 0 <= i < n ==> IsWord(chunks[i])
    ensures ChunkBytes(chunks, n).Some? ==>
              forall i, b :: 0 <= i < n && 0 <= b < 8 ==>
                ChunkBytes(chunks, n).value[8 * i + b] == ByteAt(chunks[i].n, b)
  {
    if n > 0 {
      ChunkBytesAre(chunks, n - 1);
      if ChunkBytes(chunks, n).Some? {
        var v := AsU64(chunks[n - 1]).value;
        forall i, b | 0 <= i < n && 0 <= b < 8
          ensures ChunkBytes(chunks, n).value[8 * i + b] == ByteAt(chunks[i].n, b)
        {
          if i == n - 1 {
            LittleEndian(v, LeBytes(v), b);
          }
        }
      }
    }
  }

  /**
    A parameter list is a job exactly when it starts with a string, an array of at least four
    64-bit words and a 64-bit timestamp; the hash is the bytes of the words, lowest first.
   */
  lemma NotifyMeans(params: seq<Json>)
    ensures Decoded(params).Some? <==>
            && |params| >= 3 && params[0].Str? && params[1].Arr? && |params[1].items| >= 4 && IsWord(params[2])
            && forall i :: 0 <= i < 4 ==> IsWord(params[1].items[i])
    ensures Decoded(params).Some? ==>
              && Decoded(params).value.jobId == params[0].s && Decoded(params).value.timestamp == params[2].n
              && |Decoded(params).value.prePowHash| == 32
              && forall i, b :: 0 <= i < 4 && 0 <= b < 8 ==>
                   Decoded(params).value.prePowHash[8 * i + b] == ByteAt(params[1].items[i].n, b)
  {
    if |params| >= 3 && params[0].Str? && params[1].Arr? && |params[1].items| >= 4 {
      ChunkBytesAre(params[1].items, 4);
    }
  }

  method ParseNotify(params: seq<Json>) returns (r: Option<Job>)
    ensures r == Decoded(params)
  {
    if |params| < 3 || !params[0].Str? || !params[1].Arr? {
      return None;
    }
    var chunks := params[1].items;
    if |chunks| < 4 {
      return None;
    }
    var bytes := new Byte[32](_ => 0);
    for i := 0 to 4
      invariant ChunkBytes(chunks, i) == Some(bytes[..8 * i])
    {
      var v := AsU64(chunks[i]);
      if v.None? {
        ChunkBytesFail(chunks, i, 4);
        return None;
      }
      var le := LeBytes(v.value);
      ghost var done := bytes[..8 * i];
      forall k | 0 <= k < 8 {
        bytes[8 * i + k] := le[k];
      }
      assert bytes[..8 * i] == done;
      assert bytes[8 * i..8 * (i + 1)] == le;
      assert bytes[..8 * (i + 1)] == done + le;
    }
    var t := AsU64(params[2]);
    assert bytes[..32] == bytes[..];
    if t.None? {
      return None;
    }
    return Some(Job(params[0].s, bytes[..], t.value));
  }

  function Numbers(ids: seq<U64>): (items: seq<Json>)
    ensures |items| == |ids| && forall i :: 0 <= i < |ids| ==> items[i] == Num(ids[i])
  {
    seq(|ids|, i requires 0 <= i < |ids| => Num(ids[i]))
  }

  /** The parameter list the bridge sends in the legacy form. */
  function LegacyParams(jobId: string, hash: seq<Byte>, timestamp: U64): seq<Json> {
    [Str(jobId), Arr(Numbers(LeWords(hash, 4))), Num(timestamp)]
  }

  lemma {:induction false} WordsBack(hash: seq<Byte>, items: seq<Json>, n: nat)
    requires 8 * n <= |hash| && n <= |items|
    requires forall k :: 0 <= k < n ==> items[k] == Num(LeChunk(hash, k)[0])
    ensures ChunkBytes(items, n) == Some(hash[..8 * n])
  {
    if n > 0 {
      WordsBack(hash, items, n - 1);
      var word := hash[8 * (n - 1)..8 * (n - 1) + 8];
      assert items[n - 1] == Num(LeWord(word));
      BytesOfWord(word);
      assert hash[..8 * (n - 1)] + word == hash[..8 * n];
    }
  }

  lemma {:induction false} LeWordsAt(hash: seq<Byte>, n: nat)
    requires 8 * n <= |hash|
    ensures |LeWords(hash, n)| == n
    ensures forall k :: 0 <= k < n ==> LeWords(hash, n)[k] == LeChunk(hash, k)[0]
  {
    if n > 0 {
      LeWordsAt(hash, n - 1);
    }
  }

  /** The miner restores exactly the job the bridge encoded. */
  lemma LegacyRoundTrip(jobId: string, hash: seq<Byte>, timestamp: U64)
    requires |hash| == 32
    ensures Decoded(LegacyParams(jobId, hash, timestamp)) == Some(Job(jobId, hash, timestamp))
  {
    LeWordsAt(hash, 4);
    var items := Numbers(LeWords(hash, 4));
    WordsBack(hash, items, 4);
    assert hash[..32] == hash;
    var params := LegacyParams(jobId, hash, timestamp);
    assert params[1].items == items && AsU64(params[2]) == Some(timestamp);
  }
}
