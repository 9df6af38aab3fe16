/** Little-endian property streams. */
module Streams {

  type byte = b: int | 0 <= b < 256

  function Pow256(k: nat): nat {
    if k == 0 then 1 else 256 * Pow256(k - 1)
  }

  /** The k low bytes of n, least significant first. */
  function LE(n: nat, k: nat): (s: seq<byte>)
    ensures |s| == k
    decreases k
  {
    if k == 0 then [] else [n % 256] + LE(n / 256, k - 1)
  }

  function FromLE(s: seq<byte>): nat {
    if s == [] then 0 else s[0] + 256 * FromLE(s[1..])
  }

  lemma {:induction false} ReadBack(n: nat, k: nat)
    requires n < Pow256(k)
    ensures FromLE(LE(n, k)) == n
    decreases k
  {
    if k > 0 {
      ReadBack(n / 256, k - 1);
      assert LE(n, k)[1..] == LE(n / 256, k - 1);
    }
  }

  lemma Sizes()
    ensures Pow256(1) == 0x100 && Pow256(2) == 0x1_0000 && Pow256(4) == 0x1_0000_0000
  {
    assert Pow256(0) == 1 && Pow256(3) == 0x100_0000;
  }

  const MAX_STRING := 0xFFFF

  /** What writeString appends: strings too long for their 16-bit length are dropped. */
  function StringBytes(text: seq<byte>): seq<byte> {
    if |text| > MAX_STRING then LE(0, 2) else LE(|text|, 2) + text
  }

  class PropWriteStream {
    var buffer: seq<byte>

    constructor ()
      ensures buffer == []
    {
      buffer := [];
    }

    method Write(n: nat, k: nat)
      modifies this
      ensures buffer == old(buffer) + LE(n, k)
    {
      buffer := buffer + LE(n, k);
    }

    method WriteString(text: seq<byte>)
      modifies this
      ensures buffer == old(buffer) + StringBytes(text)
    {
      if |text| > MAX_STRING {
        Write(0, 2);
        return;
      }
      Write(|text|, 2);
      buffer := buffer + text;
    }
  }

  class PropStream {
    const data: seq<byte>
    var p: nat

    constructor (data: seq<byte>)
      ensures this.data == data && Valid() && Rest() == data
    {
      this.data, p := data, 0;
    }

    predicate Valid()
      reads this
    {
      p <= |data|
    }

    /** The bytes not read yet. */
    function Rest(): seq<byte>
      reads this
      requires Valid()
    {
      data[p..]
    }

    /** Reads k bytes as an unsigned number, or nothing at all. */
    method Read(k: nat) returns (ok: bool, value: nat)
      requires Valid()
      modifies this
      ensures Valid() && ok == (|old(Rest())| >= k)
      ensures ok ==> value == FromLE(old(Rest())[..k]) && Rest() == old(Rest())[k..]
      ensures !ok ==> Rest() == old(Rest())
    {
      if |data| - p < k {
        return false, 0;
      }
      assert data[p..][..k] == data[p..p + k];
      ok, value := true, FromLE(data[p..p + k]);
      p := p + k;
    }

    /** Reads the k bytes of a structure. */
    method ReadBytes(k: nat) returns (ok: bool, bytes: seq<byte>)
      requires Valid()
      modifies this
      ensures Valid() && ok == (|old(Rest())| >= k)
      ensures ok ==> bytes == old(Rest())[..k] && Rest() == old(Rest())[k..]
      ensures !ok ==> Rest() == old(Rest())
    {
      if |data| - p < k {
        return false, [];
      }
      assert data[p..][..k] == data[p..p + k];
      ok, bytes := true, data[p..p + k];
      p := p + k;
    }

    method ReadString() returns (ok: bool, text: seq<byte>)
      requires Valid()
      modifies this
      ensures Valid() && ok == CanReadString(old(Rest()))
      ensures ok ==> text == StringIn(old(Rest())) && Rest() == old(Rest())[2 + |text|..]
    {
      text := [];
      var len: nat;
      ghost var b := Rest();
      ok, len := Read(2);
      if !ok {
        return;
      }
      if |data| - p < len {
        return false, [];
      }
      assert |Rest()| == |b| - 2;
      text := data[p..p + len];
      assert text == Rest()[..len] == b[2..2 + len];
      assert data[p + len..] == Rest()[len..] == b[2 + len..];
      p := p + len;
    }

    method Skip(n: nat) returns (ok: bool)
      requires Valid()
      modifies this
      ensures Valid() && ok == (|old(Rest())| >= n)
      ensures ok ==> Rest() == old(Rest())[n..]
      ensures !ok ==> Rest() == old(Rest())
    {
      if |data| - p < n {
        return false;
      }
      p := p + n;
      ok := true;
    }
  }

  predicate CanReadString(b: seq<byte>) {
    |b| >= 2 && |b| - 2 >= FromLE(b[..2])
  }

  function StringIn(b: seq<byte>): seq<byte>
    requires CanReadString(b)
  {
    b[2..2 + FromLE(b[..2])]
  }

  /** A written string is read back, with what follows it, exactly when it fits its length field. */
  lemma StringReadBack(text: seq<byte>, suffix: seq<byte>)
    ensures var b := StringBytes(text) + suffix;
      && CanReadString(b) && b[2 + |StringIn(b)|..] == suffix
      && (StringIn(b) == text <==> |text| <= MAX_STRING)
  {
    Sizes();
    var b, n := StringBytes(text) + suffix, if |text| > MAX_STRING then 0 else |text|;
    ReadBack(n, 2);
    assert b[..2] == LE(n, 2);
    if |text| <= MAX_STRING {
      assert b == LE(n, 2) + (text + suffix);
      assert b[2..2 + n] == text;
    }
  }
}
