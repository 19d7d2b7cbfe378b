/**
 HMAC-SHA256 (cbase_hash.c): the streaming context against the nested construction of RFC 2104.
 */
module HmacContext {
  import opened Bits
  import opened Fips180
  import opened Hash

  /** cb_sha256: init, one update, final. */
  method OneShot(input: seq<Octet>, out: array<Octet>)
    requires out.Length == 32
    modifies out
    ensures out[..] == DigestWith(input, 8 * |input| % U64)
    ensures 8 * |input| < U64 ==> out[..] == Sha256(input)
  {
    hide DigestWith, Sha256;
    var ctx := new Context();
    ctx.Update(input);
    assert [] + input == input;
    ctx.Final(out);
  }

  /** cb__hmac_derive_block_key: a long key is hashed, a short one copied; the rest is zero. */
  method DeriveBlockKey(key: seq<Octet>) returns (k: array<Octet>)
    requires 8 * |key| < U64
    ensures fresh(k) && k.Length == 64 && k[..] == BlockKey(key)
  {
    hide Sha256, Zeros, DigestWith;
    k := new Octet[64](_ => 0);
    var short := key;
    if |key| > 64 {
      var digest := new Octet[32](_ => 0);
      OneShot(key, digest);
      short := digest[..];
    }
    AllZeros(k[..]);
    Overwrite(k, short);
  }

  /** memcpy to the front of a zeroed block. */
  method Overwrite(k: array<Octet>, short: seq<Octet>)
    requires k.Length == 64 && k[..] == Zeros(64) && |short| <= 64
    modifies k
    ensures k[..] == short + Zeros(64 - |short|)
  {
    hide Zeros;
    assert k[0..] == k[..];
    for i := 0 to |short|
      invariant k[..i] == short[..i] && k[i..] == Zeros(64 - i)
    {
      ghost var rest := k[i + 1..];
      DropZero(64 - i);
      assert rest == k[i..][1..];
      k[i] := short[i];
      assert short[..i + 1] == short[..i] + [short[i]];
    }
    assert short[..|short|] == short;
    assert k[..] == k[..|short|] + k[|short|..];
  }

  lemma AllZeros(s: seq<Octet>)
    requires forall i :: 0 <= i < |s| ==> s[i] == 0
    ensures s == Zeros(|s|)
  {
  }

  lemma DropZero(n: nat)
    requires n > 0
    ensures Zeros(n)[1..] == Zeros(n - 1)
  {
  }

  method XorInto(key: array<Octet>, x: Octet) returns (pad: array<Octet>)
    ensures fresh(pad) && pad[..] == XorAll(key[..], x)
  {
    hide XorOctet;
    pad := new Octet[key.Length](_ => 0);
    for i := 0 to key.Length
      invariant forall j :: 0 <= j < i ==> pad[j] == XorOctet(key[j], x)
    {
      pad[i] := XorOctet(key[i], x);
    }
  }

  class Hmac256 {
    const inner: Context
    const outerPad: array<Octet>
    ghost const key: seq<Octet>
    ghost var text: seq<Octet>

    ghost predicate Valid() reads this, inner, inner.state, inner.buffer, outerPad {
      && inner.Valid()
      && outerPad != inner.buffer
      && 8 * |key| < U64
      && outerPad[..] == XorAll(BlockKey(key), 0x5C)
      && inner.message == XorAll(BlockKey(key), 0x36) + text
    }

    /** cb_hmac_sha256_init */
    constructor (key: seq<Octet>)
      requires 8 * |key| < U64
      ensures Valid() && this.key == key && text == []
      ensures fresh(inner) && fresh(inner.state) && fresh(inner.buffer) && fresh(outerPad)
    {
      hide BlockKey, XorAll, Core;
      this.key := key;
      text := [];
      var blockKey := DeriveBlockKey(key);
      var ipad := XorInto(blockKey, 0x36);
      var opad := XorInto(blockKey, 0x5C);
      outerPad := opad;
      var ctx := new Context();
      inner := ctx;
      new;
      inner.Update(ipad[..]);
      assert [] + ipad[..] == ipad[..] + [];
    }

    /** cb_hmac_sha256_update */
    method Update(data: seq<Octet>)
      requires Valid()
      modifies this, inner, inner.state, inner.buffer
      ensures Valid() && text == old(text) + data
    {
      hide BlockKey, XorAll, Core;
      inner.Update(data);
      assert XorAll(BlockKey(key), 0x36) + text + data == XorAll(BlockKey(key), 0x36) + (text + data);
      text := text + data;
    }

    /** cb_hmac_sha256_final: the tag of the key and of all bytes given, in whatever pieces. */
    method Final(out: array<Octet>)
      requires Valid() && out.Length == 32
      requires out != inner.buffer && out != outerPad
      modifies this, inner, inner.state, inner.buffer, out
      ensures 8 * (64 + |old(text)|) < U64 ==> out[..] == Hmac(key, old(text))
    {
      hide BlockKey, XorAll, Sha256, DigestWith, Octets, Core;
      ghost var k := BlockKey(key);
      var innerDigest := new Octet[32](_ => 0);
      inner.Final(innerDigest);
      var outer := new Context();
      outer.Update(outerPad[..]);
      outer.Update(innerDigest[..]);
      ghost var outerMessage := [] + outerPad[..] + innerDigest[..];
      assert outerMessage == XorAll(k, 0x5C) + innerDigest[..];
      outer.Final(out);
    }
  }

  /** cb_hmac_sha256 */
  method HmacOneShot(key: seq<Octet>, msg: seq<Octet>, out: array<Octet>)
    requires 8 * |key| < U64 && out.Length == 32
    modifies out
    ensures 8 * (64 + |msg|) < U64 ==> out[..] == Hmac(key, msg)
  {
    hide Hmac;
    var ctx := new Hmac256(key);
    ctx.Update(msg);
    assert [] + msg == msg;
    ctx.Final(out);
  }

  ghost function Concat(chunks: seq<seq<Octet>>): seq<Octet> {
    if chunks == [] then [] else chunks[0] + Concat(chunks[1..])
  }

  lemma ConcatStep(chunks: seq<seq<Octet>>, i: nat)
    requires i < |chunks|
    ensures Concat(chunks[i..]) == chunks[i] + Concat(chunks[i + 1..])
  {
    assert chunks[i..][1..] == chunks[i + 1..];
  }

  lemma ConcatEnd(chunks: seq<seq<Octet>>)
    ensures Concat(chunks[|chunks|..]) == []
  {
  }

  /** A message hashed in any pieces, empty ones included, has the digest of the whole. */
  method HashInPieces(chunks: seq<seq<Octet>>, out: array<Octet>)
    requires out.Length == 32
    modifies out
    ensures 8 * |Concat(chunks)| < U64 ==> out[..] == Sha256(Concat(chunks))
  {
    hide DigestWith, Sha256, Core, Concat;
    var ctx := new Context();
    assert Concat(chunks) == [] + Concat(chunks[0..]);
    for i := 0 to |chunks|
      invariant ctx.Valid() && fresh(ctx.state) && fresh(ctx.buffer)
      invariant ctx.message + Concat(chunks[i..]) == Concat(chunks)
    {
      ConcatStep(chunks, i);
      ctx.Update(chunks[i]);
    }
    assert ctx.message == Concat(chunks) by { ConcatEnd(chunks); }
    ctx.Final(out);
  }

  /** The same for the keyed digest, for keys of any length. */
  method HmacInPieces(key: seq<Octet>, chunks: seq<seq<Octet>>, out: array<Octet>)
    requires 8 * |key| < U64 && out.Length == 32
    modifies out
    ensures 8 * (64 + |Concat(chunks)|) < U64 ==> out[..] == Hmac(key, Concat(chunks))
  {
    hide Hmac, BlockKey, XorAll, Core, Concat;
    var ctx := new Hmac256(key);
    assert Concat(chunks) == [] + Concat(chunks[0..]);
    for i := 0 to |chunks|
      invariant ctx.Valid() && ctx.key == key
      invariant fresh(ctx.inner) && fresh(ctx.inner.state) && fresh(ctx.inner.buffer) && fresh(ctx.outerPad)
      invariant ctx.text + Concat(chunks[i..]) == Concat(chunks)
    {
      ConcatStep(chunks, i);
      ctx.Update(chunks[i]);
    }
    assert ctx.text == Concat(chunks) by { ConcatEnd(chunks); }
    ctx.Final(out);
  }
}
