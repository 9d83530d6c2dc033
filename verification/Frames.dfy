/** Sealed frames. Both ends put the same thing on the wire: ciphertext, tag, initialisation
    vector. AES-GCM itself (sections 7.1 and 7.2 of NIST SP 800-38D) is a parameter. */
module Frames {
  import opened Bytes
  import opened Options

  const KEY_LENGTH: nat := 16
  const IV_LENGTH: nat := 12
  const TAG_LENGTH: nat := 16
  const OVERHEAD: nat := TAG_LENGTH + IV_LENGTH
  const BUFLEN: nat := 2048

  type Key = s: seq<bv8> | |s| == 16 witness Zeros(16)
  type Iv = s: seq<bv8> | |s| == 12 witness Zeros(12)

  /** Sealing yields ciphertext and tag; opening gives the plaintext back or fails. */
  datatype Gcm = Gcm(seal: (Key, Iv, seq<bv8>) -> seq<bv8>, open: (Key, Iv, seq<bv8>) -> Option<seq<bv8>>)

  /** The idealisation: what is sealed opens under the sealing key and under no other, and only what
      was sealed opens. */
  ghost predicate Ideal(g: Gcm) {
    && (forall k: Key, iv: Iv, p :: |g.seal(k, iv, p)| == |p| + TAG_LENGTH)
    && (forall k: Key, j: Key, iv: Iv, p :: g.open(j, iv, g.seal(k, iv, p)) == if j == k then Some(p) else None)
    && (forall k: Key, iv: Iv, c :: g.open(k, iv, c).Some? ==> c == g.seal(k, iv, g.open(k, iv, c).value))
  }

  /** The frame of a plaintext. */
  function Seal(g: Gcm, k: Key, iv: Iv, p: seq<bv8>): (f: seq<bv8>) {
    g.seal(k, iv, p) + iv
  }

  function Unseal(g: Gcm, k: Key, f: seq<bv8>): (p: Option<seq<bv8>>) {
    if |f| < OVERHEAD then None
    else g.open(k, f[|f| - IV_LENGTH..], f[..|f| - IV_LENGTH])
  }

  /** A frame opens under the key it was sealed with and no other. */
  lemma OpenSealed(g: Gcm, k: Key, j: Key, iv: Iv, p: seq<bv8>)
    requires Ideal(g)
    ensures |Seal(g, k, iv, p)| == |p| + OVERHEAD
    ensures Unseal(g, j, Seal(g, k, iv, p)) == if j == k then Some(p) else None
  {
    var c, f := g.seal(k, iv, p), Seal(g, k, iv, p);
    assert |c| == |p| + TAG_LENGTH;
    assert f[|f| - IV_LENGTH..] == iv && f[..|f| - IV_LENGTH] == c;
  }

  /** Every frame that opens is the frame of what it opens to. */
  lemma OpenedWasSealed(g: Gcm, k: Key, f: seq<bv8>) returns (iv: Iv)
    requires Ideal(g) && Unseal(g, k, f).Some?
    ensures f == Seal(g, k, iv, Unseal(g, k, f).value)
    ensures |f| == |Unseal(g, k, f).value| + OVERHEAD
  {
    iv := f[|f| - IV_LENGTH..];
    var c := f[..|f| - IV_LENGTH];
    assert g.open(k, iv, c).Some?;
    assert f == c + iv;
  }

  // ----- the kernel's end

  /** trm_aes_operation, decrypting: a failure leaves the output buffer as it was. */
  method KernelDecrypt(g: Gcm, k: Key, data: seq<bv8>, out: array<bv8>) returns (err: bool, outlen: nat)
    requires Ideal(g) && OVERHEAD <= |data| <= out.Length
    modifies out
    ensures err <==> Unseal(g, k, data) == None
    ensures err ==> outlen == 0 && out[..] == old(out[..])
    ensures !err ==> outlen == |data| - OVERHEAD && out[..] == Unseal(g, k, data).value + old(out[..])[outlen..]
  {
    outlen := 0;
    var iv := data[|data| - IV_LENGTH..];
    var datasize := |data| - IV_LENGTH;
    var plain := g.open(k, iv, data[..datasize]);
    if plain == None {
      return true, outlen;
    }
    ghost var vector := OpenedWasSealed(g, k, data);
    err, outlen := false, datasize - TAG_LENGTH;
    CopyInto(out, 0, plain.value);
  }

  method CopyInto(a: array<bv8>, start: nat, s: seq<bv8>)
    requires start + |s| <= a.Length
    modifies a
    ensures a[..] == old(a[..])[..start] + s + old(a[..])[start + |s|..]
  {
    var i := 0;
    while i < |s|
      invariant 0 <= i <= |s|
      invariant a[..] == old(a[..])[..start] + s[..i] + old(a[..])[start + i..]
    {
      a[start + i] := s[i];
      i := i + 1;
    }
    assert s[..i] == s;
  }

  /** trm_aes_operation, encrypting. */
  method KernelEncrypt(g: Gcm, k: Key, iv: Iv, data: seq<bv8>, out: array<bv8>) returns (outlen: nat)
    requires Ideal(g) && out.Length == |data| + OVERHEAD
    modifies out
    ensures outlen == |data| + OVERHEAD && out[..] == Seal(g, k, iv, data)
  {
    var c := g.seal(k, iv, data);
    assert |c| == |data| + TAG_LENGTH;
    CopyInto(out, 0, c);
    CopyInto(out, |data| + TAG_LENGTH, iv);
    outlen := |data| + OVERHEAD;
  }

  // ----- the enclave's end

  /** What the enclave's aes_decrypt yields: the plaintext, or zeros when the frame does not open;
      it reports success either way. */
  function OpenOrZeros(g: Gcm, k: Key, f: seq<bv8>): (p: seq<bv8>)
    requires |f| >= OVERHEAD
  {
    match Unseal(g, k, f)
    case Some(p) => p
    case None => Zeros(|f| - OVERHEAD)
  }

  lemma OpenOrZerosSize(g: Gcm, k: Key, f: seq<bv8>)
    requires Ideal(g) && |f| >= OVERHEAD
    ensures |OpenOrZeros(g, k, f)| == |f| - OVERHEAD
  {
    if Unseal(g, k, f).Some? {
      var iv := OpenedWasSealed(g, k, f);
    }
  }

  /** A cipher that meets the idealisation, so that nothing is proved of an empty assumption: the tag
      is the key. */
  function TagIsKey(): (g: Gcm) {
    Gcm((k: Key, iv: Iv, p: seq<bv8>) => p + k,
        (k: Key, iv: Iv, c: seq<bv8>) =>
          if |c| >= TAG_LENGTH && c[|c| - TAG_LENGTH..] == k then Some(c[..|c| - TAG_LENGTH]) else None)
  }

  lemma IdealExists()
    ensures Ideal(TagIsKey())
  {
    var g := TagIsKey();
    forall k: Key, j: Key, iv: Iv, p: seq<bv8>
      ensures g.open(j, iv, g.seal(k, iv, p)) == if j == k then Some(p) else None
    {
      var c := g.seal(k, iv, p);
      assert c[|c| - TAG_LENGTH..] == k && c[..|c| - TAG_LENGTH] == p;
    }
    forall k: Key, iv: Iv, c: seq<bv8> | g.open(k, iv, c).Some?
      ensures c == g.seal(k, iv, g.open(k, iv, c).value)
    {
      assert c == c[..|c| - TAG_LENGTH] + c[|c| - TAG_LENGTH..];
    }
  }

  /** decryptMessage: a zero-filled buffer, the tag and the vector found from the end. */
  method EnclaveDecrypt(g: Gcm, k: Key, msg: seq<bv8>) returns (out: seq<bv8>)
    requires Ideal(g) && OVERHEAD <= |msg| <= BUFLEN
    ensures out == OpenOrZeros(g, k, msg) && |out| == |msg| - OVERHEAD
  {
    var len, lenOut := |msg|, |msg| - OVERHEAD;
    var dst := new bv8[BUFLEN](_ => 0);
    var cipher, tag := msg[..lenOut], msg[len - IV_LENGTH - TAG_LENGTH..len - IV_LENGTH];
    var iv := msg[len - IV_LENGTH..];
    assert cipher + tag == msg[..len - IV_LENGTH];
    var plain := g.open(k, iv, cipher + tag);
    if plain.Some? {
      ghost var vector := OpenedWasSealed(g, k, msg);
      CopyInto(dst, 0, plain.value);
    }
    out := dst[..lenOut];
  }

  /** encryptMessage: ciphertext, tag and vector at their offsets in one buffer. */
  method EnclaveEncrypt(g: Gcm, k: Key, iv: Iv, msg: seq<bv8>) returns (out: seq<bv8>)
    requires Ideal(g) && |msg| + OVERHEAD <= BUFLEN
    ensures out == Seal(g, k, iv, msg)
  {
    var len := |msg|;
    var dst := new bv8[BUFLEN](_ => 0);
    CopyInto(dst, len + TAG_LENGTH, iv);
    var c := g.seal(k, iv, msg);
    assert |c| == len + TAG_LENGTH;
    CopyInto(dst, 0, c);
    out := dst[..len + OVERHEAD];
  }
}
