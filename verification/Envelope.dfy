/**
 Client-side encryption (envelope.go): a payload is sealed under a fresh data key, and the data key is
 sealed under the master key.  The primitives themselves are parameters; `Lawful` lists all that is
 assumed of them, and `LawsAreConsistent` shows that the assumptions do not contradict each other.
*/
module Envelope {
  import opened Wrappers

  newtype byte = x: int | 0 <= x < 256
  type Bytes = seq<byte>

  const KEY_SIZE: nat := 32
  const NONCE_SIZE: nat := 12
  const TAG_SIZE: nat := 16

  // SHA-256 in hex, AES-256-GCM (key, nonce, text), and Argon2id (secret, salt, time, memory, threads).
  datatype Primitives = Primitives(
    hash: Bytes -> string,
    gcmSeal: (Bytes, Bytes, Bytes) -> Bytes,
    gcmOpen: (Bytes, Bytes, Bytes) -> Option<Bytes>,
    kdf: (string, Bytes, nat, nat, nat) -> Bytes)

  // A hash that never collides and is never the empty string.
  ghost predicate Ideal(h: Bytes -> string) {
    && (forall b :: h(b) != "")
    && (forall a, b :: h(a) == h(b) ==> a == b)
  }

  // Opening undoes sealing, sealing adds one tag, and derived keys have the cipher's key size.
  ghost predicate Lawful(c: Primitives) {
    && Ideal(c.hash)
    && (forall k: Bytes, n: Bytes, p: Bytes | |k| == KEY_SIZE && |n| == NONCE_SIZE ::
          c.gcmOpen(k, n, c.gcmSeal(k, n, p)) == Some(p) && |c.gcmSeal(k, n, p)| == |p| + TAG_SIZE)
    && (forall s, salt, t, m, th :: |c.kdf(s, salt, t, m, th)| == KEY_SIZE)
  }

  // Everything an operation draws from outside: a data key, two nonces, and a clock reading.
  datatype FreshRaw = FreshRaw(dek: Bytes, nonce: Bytes, dekNonce: Bytes, clock: string)

  predicate DrawnSizes(f: FreshRaw) {
    |f.dek| == KEY_SIZE && |f.nonce| == NONCE_SIZE && |f.dekNonce| == NONCE_SIZE
  }

  type Fresh = f: FreshRaw | DrawnSizes(f)
    witness FreshRaw(seq(KEY_SIZE, _ => 0), seq(NONCE_SIZE, _ => 0), seq(NONCE_SIZE, _ => 0), "")

  /* ---- envelope.go ---- */

  // A key of the wrong size is refused.
  function Seal(c: Primitives, key: Bytes, nonce: Bytes, plain: Bytes): Option<Bytes> {
    if |key| != KEY_SIZE then None else Some(c.gcmSeal(key, nonce, plain))
  }

  function Open(c: Primitives, key: Bytes, nonce: Bytes, ct: Bytes): Option<Bytes> {
    if |key| != KEY_SIZE || |nonce| != NONCE_SIZE then None else c.gcmOpen(key, nonce, ct)
  }

  /* ---- the stored object ---- */

  // The metadata the engine reads back: claimed plaintext hash and size, payload nonce, sealed data key.
  datatype Meta = Meta(digest: string, size: nat, nonce: Bytes, dekNonce: Bytes, dek: Bytes)

  datatype Obj = Obj(ct: Bytes, meta: Meta)

  // What an upload puts in the bucket.
  function SealObject(c: Primitives, master: Bytes, plain: Bytes, digest: string, size: nat, f: Fresh): Option<Obj> {
    match (Seal(c, f.dek, f.nonce, plain), Seal(c, master, f.dekNonce, f.dek))
    case (Some(ct), Some(wrapped)) => Some(Obj(ct, Meta(digest, size, f.nonce, f.dekNonce, wrapped)))
    case _ => None
  }

  // What a download makes of an object: missing encryption metadata, a data key that does not unwrap,
  // or a payload that does not open all fail.
  function OpenObject(c: Primitives, master: Bytes, o: Obj): Option<Bytes> {
    if o.meta.nonce == [] || o.meta.dek == [] then None
    else
      match Open(c, master, o.meta.dekNonce, o.meta.dek)
      case None => None
      case Some(dek) => Open(c, dek, o.meta.nonce, o.ct)
  }

  // The payload is protected by the fresh data key, the data key by the master key, each under a nonce of
  // its own; knowing the master key is enough to get the bytes back.
  lemma SealedObjectOpens(c: Primitives, master: Bytes, plain: Bytes, digest: string, size: nat, f: Fresh)
    requires Lawful(c)
    ensures SealObject(c, master, plain, digest, size, f).Some? <==> |master| == KEY_SIZE
    ensures |master| == KEY_SIZE ==>
              var o := SealObject(c, master, plain, digest, size, f).value;
              && OpenObject(c, master, o) == Some(plain)
              && |o.ct| == |plain| + TAG_SIZE
              && o.meta.digest == digest && o.meta.size == size
              && o.meta.nonce == f.nonce && o.meta.dekNonce == f.dekNonce
              && c.gcmOpen(f.dek, o.meta.nonce, o.ct) == Some(plain)
              && c.gcmOpen(master, o.meta.dekNonce, o.meta.dek) == Some(f.dek)
  {
    if |master| == KEY_SIZE {
      var wrapped := c.gcmSeal(master, f.dekNonce, f.dek);
      assert |wrapped| == |f.dek| + TAG_SIZE && c.gcmOpen(master, f.dekNonce, wrapped) == Some(f.dek);
      assert c.gcmOpen(f.dek, f.nonce, c.gcmSeal(f.dek, f.nonce, plain)) == Some(plain);
    }
  }

  // What opening an object takes: its metadata, and the two keys one after the other.
  lemma OpensExactly(c: Primitives, master: Bytes, o: Obj, b: Bytes)
    ensures OpenObject(c, master, o) == Some(b) <==>
            && o.meta.nonce != [] && o.meta.dek != []
            && |master| == KEY_SIZE && |o.meta.dekNonce| == NONCE_SIZE && |o.meta.nonce| == NONCE_SIZE
            && exists dek :: c.gcmOpen(master, o.meta.dekNonce, o.meta.dek) == Some(dek) && |dek| == KEY_SIZE
                             && c.gcmOpen(dek, o.meta.nonce, o.ct) == Some(b)
  {
  }

  /* ---- authenticity ---- */

  ghost predicate RejectsOtherKeys(c: Primitives, key: Bytes, nonce: Bytes, ct: Bytes) {
    forall other: Bytes | |other| == KEY_SIZE && other != key :: c.gcmOpen(other, nonce, ct) == None
  }

  // No other secret derives this secret's key, and what is sealed under that key opens under no other.
  ghost predicate Guards(c: Primitives, secret: string, salt: Bytes, time: nat, memory: nat, threads: nat, nonce: Bytes, plain: Bytes) {
    var key := c.kdf(secret, salt, time, memory, threads);
    && (forall other | other != secret :: c.kdf(other, salt, time, memory, threads) != key)
    && RejectsOtherKeys(c, key, nonce, c.gcmSeal(key, nonce, plain))
  }

  /* ---- the assumptions can be met ---- */

  function Spell(b: Bytes): string {
    ['h'] + seq(|b|, i requires 0 <= i < |b| => b[i] as int as char)
  }

  lemma SpellIdeal()
    ensures Ideal(Spell)
  {
    forall a, b | Spell(a) == Spell(b)
      ensures a == b
    {
      assert |a| == |b|;
      forall i | 0 <= i < |a|
        ensures a[i] == b[i]
      {
        assert Spell(a)[i + 1] == Spell(b)[i + 1];
      }
    }
  }

  function ToyTag(key: Bytes): Bytes {
    seq(TAG_SIZE, _ => if key == seq(KEY_SIZE, _ => 0) then 0 else 1)
  }

  function ToyCipher(): Primitives {
    Primitives(
      Spell,
      (k: Bytes, n: Bytes, p: Bytes) => p + ToyTag(k),
      (k: Bytes, n: Bytes, ct: Bytes) =>
        if |ct| < TAG_SIZE || ct[|ct| - TAG_SIZE..] != ToyTag(k) then None else Some(ct[..|ct| - TAG_SIZE]),
      (s: string, salt: Bytes, t: nat, m: nat, th: nat) => seq(KEY_SIZE, _ => if s == "" then 0 else 1))
  }

  lemma ToyOpens(k: Bytes, n: Bytes, p: Bytes)
    ensures ToyCipher().gcmOpen(k, n, ToyCipher().gcmSeal(k, n, p)) == Some(p)
  {
    var ct := p + ToyTag(k);
    assert ct[..|ct| - TAG_SIZE] == p && ct[|ct| - TAG_SIZE..] == ToyTag(k);
  }

  lemma ToyRejects(other: Bytes, n: Bytes, p: Bytes)
    requires other != seq(KEY_SIZE, _ => 0)
    ensures ToyCipher().gcmOpen(other, n, ToyCipher().gcmSeal(seq(KEY_SIZE, _ => 0), n, p)) == None
  {
    var zeros: Bytes := seq(KEY_SIZE, _ => 0);
    var ct := p + ToyTag(zeros);
    assert ct[|ct| - TAG_SIZE..] == ToyTag(zeros);
    assert ToyTag(zeros)[0] != ToyTag(other)[0];
  }

  // All of it at once, authenticity included: there are such primitives.
  lemma LawsAreConsistent()
    ensures exists c :: Lawful(c) && forall salt, t, m, th, nonce, plain :: Guards(c, "", salt, t, m, th, nonce, plain)
  {
    SpellIdeal();
    var c := ToyCipher();
    forall k: Bytes, n: Bytes, p: Bytes
      ensures c.gcmOpen(k, n, c.gcmSeal(k, n, p)) == Some(p)
    {
      ToyOpens(k, n, p);
    }
    assert Lawful(c);
    forall salt, t, m, th, nonce, plain
      ensures Guards(c, "", salt, t, m, th, nonce, plain)
    {
      var key := c.kdf("", salt, t, m, th);
      forall other: string | other != ""
        ensures c.kdf(other, salt, t, m, th) != key
      {
        assert c.kdf(other, salt, t, m, th)[0] != key[0];
      }
      forall other: Bytes | |other| == KEY_SIZE && other != key
        ensures c.gcmOpen(other, nonce, c.gcmSeal(key, nonce, plain)) == None
      {
        assert key == seq(KEY_SIZE, _ => 0);
        ToyRejects(other, nonce, plain);
      }
    }
  }
}
