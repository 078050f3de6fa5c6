/**
 Persistence of the master key (keystore.go): it is sealed twice, under a key derived from the
 passphrase and under one derived from the recovery code, in two files of the data directory.
*/
module Keystore {
  import opened Wrappers
  import opened Envelope
  import opened Cells
  import opened Planner
  import opened Worlds

  const KEY_FILE: string := "master.key"
  const RECOVERY_FILE: string := "master.recovery.key"
  const ARGON_TIME: nat := 3
  const ARGON_MEM: nat := 64 * 1024
  const ARGON_THREADS: nat := 4

  datatype SealedMaster = SealedMaster(salt: Bytes, nonce: Bytes, ct: Bytes, time: nat, memory: nat, threads: nat)

  // A key file decodes to a sealed master key or does not decode at all.
  datatype KeyFile = Decodable(blob: SealedMaster) | Garbled

  datatype LoadResult = Master(key: Bytes) | NoFile | Undecodable | BadSecret

  function DeriveKey(c: Primitives, secret: string, salt: Bytes): Bytes {
    c.kdf(secret, salt, ARGON_TIME, ARGON_MEM, ARGON_THREADS)
  }

  // The key is derived with the parameters stored in the file, not with the current constants.
  function LoadAndOpen(c: Primitives, files: map<string, KeyFile>, path: string, secret: string): LoadResult {
    if path !in files then NoFile
    else
      match files[path]
      case Garbled => Undecodable
      case Decodable(b) =>
        match Open(c, c.kdf(secret, b.salt, b.time, b.memory, b.threads), b.nonce, b.ct)
        case None => BadSecret
        case Some(master) => Master(master)
  }

  // Fresh salt and nonce for one sealing.
  datatype DrawRaw = DrawRaw(salt: Bytes, nonce: Bytes)
  type Draw = d: DrawRaw | |d.nonce| == NONCE_SIZE witness DrawRaw([], seq(NONCE_SIZE, _ => 0))

  // The directory after sealing the master key under a secret, into one of its files.
  function Resealed(c: Primitives, files: map<string, KeyFile>, path: string, secret: string, master: Bytes, d: Draw): map<string, KeyFile> {
    var ct := c.gcmSeal(DeriveKey(c, secret, d.salt), d.nonce, master);
    files[path := Decodable(SealedMaster(d.salt, d.nonce, ct, ARGON_TIME, ARGON_MEM, ARGON_THREADS))]
  }

  function Created(c: Primitives, files: map<string, KeyFile>, passphrase: string, code: string, master: Bytes,
                   d1: Draw, d2: Draw): map<string, KeyFile>
  {
    Resealed(c, Resealed(c, files, KEY_FILE, passphrase, master, d1), RECOVERY_FILE, code, master, d2)
  }

  class KeyDir {
    const prim: Primitives
    var files: map<string, KeyFile>

    constructor (prim: Primitives, files: map<string, KeyFile>)
      ensures this.prim == prim && this.files == files
    {
      this.prim, this.files := prim, files;
    }

    method SealAndWrite(path: string, secret: string, master: Bytes, d: Draw)
      requires Lawful(prim)
      modifies this
      ensures LoadAndOpen(prim, files, path, secret) == Master(master)
      ensures files == Resealed(prim, old(files), path, secret, master, d)
      ensures files.Keys == old(files).Keys + {path}
      ensures forall p | p in old(files) && p != path :: files[p] == old(files)[p]
    {
      var kek := DeriveKey(prim, secret, d.salt);
      var ct := Seal(prim, kek, d.nonce, master);
      var blob := SealedMaster(d.salt, d.nonce, ct.value, ARGON_TIME, ARGON_MEM, ARGON_THREADS);
      files := files[path := Decodable(blob)];
      assert prim.gcmOpen(kek, d.nonce, prim.gcmSeal(kek, d.nonce, master)) == Some(master);
    }

    method CreateMasterKey(passphrase: string, code: string, master: Bytes, d1: Draw, d2: Draw)
      requires Lawful(prim) && |master| == KEY_SIZE
      modifies this
      ensures LoadAndOpen(prim, files, KEY_FILE, passphrase) == Master(master)
      ensures LoadAndOpen(prim, files, RECOVERY_FILE, code) == Master(master)
      ensures files == Created(prim, old(files), passphrase, code, master, d1, d2)
      ensures files.Keys == old(files).Keys + {KEY_FILE, RECOVERY_FILE}
    {
      SealAndWrite(KEY_FILE, passphrase, master, d1);
      ghost var was := files;
      SealAndWrite(RECOVERY_FILE, code, master, d2);
      assert |KEY_FILE| != |RECOVERY_FILE|;
      assert files[KEY_FILE] == was[KEY_FILE];
    }

    // Retro-fit a recovery code, or replace one, for an installation whose master key is known.
    method AddRecoveryKey(code: string, master: Bytes, d: Draw)
      requires Lawful(prim)
      modifies this
      ensures files == Resealed(prim, old(files), RECOVERY_FILE, code, master, d)
      ensures LoadAndOpen(prim, files, RECOVERY_FILE, code) == Master(master)
      ensures files.Keys == old(files).Keys + {RECOVERY_FILE}
      ensures forall secret :: LoadAndOpen(prim, files, KEY_FILE, secret) == old(LoadAndOpen(prim, files, KEY_FILE, secret))
    {
      SealAndWrite(RECOVERY_FILE, code, master, d);
      assert |KEY_FILE| != |RECOVERY_FILE|;
    }

    method LoadMasterKey(passphrase: string) returns (r: LoadResult)
      ensures r == LoadAndOpen(prim, files, KEY_FILE, passphrase)
    {
      r := LoadAndOpen(prim, files, KEY_FILE, passphrase);
    }

    method LoadMasterKeyWithRecovery(code: string) returns (r: LoadResult)
      ensures r == LoadAndOpen(prim, files, RECOVERY_FILE, code)
    {
      r := LoadAndOpen(prim, files, RECOVERY_FILE, code);
    }
  }

  // The object's life: create the key, perhaps give it a new code, unlock it both ways.
  method UnlockBothWays(prim: Primitives, files: map<string, KeyFile>, passphrase: string, code: string, newCode: Option<string>,
                        master: Bytes, d1: Draw, d2: Draw, d3: Draw)
    returns (dir: KeyDir, byPassphrase: LoadResult, byCode: LoadResult)
    requires Lawful(prim) && |master| == KEY_SIZE
    ensures byPassphrase == byCode == Master(master)
    ensures dir.files.Keys == files.Keys + {"master.key", "master.recovery.key"}
  {
    dir := new KeyDir(prim, files);
    dir.CreateMasterKey(passphrase, code, master, d1, d2);
    var current := code;
    if newCode.Some? {
      current := newCode.value;
      dir.AddRecoveryKey(current, master, d3);
    }
    byPassphrase := dir.LoadMasterKey(passphrase);
    byCode := dir.LoadMasterKeyWithRecovery(current);
  }

  // A file sealed with any Argon2 parameters, not only today's, opens with its secret: the parameters
  // travel with it.
  lemma AnyParametersOpen(c: Primitives, files: map<string, KeyFile>, path: string, secret: string, master: Bytes,
                          salt: Bytes, nonce: Bytes, time: nat, memory: nat, threads: nat)
    requires Lawful(c) && |nonce| == NONCE_SIZE
    ensures var ct := c.gcmSeal(c.kdf(secret, salt, time, memory, threads), nonce, master);
            var sealed := files[path := Decodable(SealedMaster(salt, nonce, ct, time, memory, threads))];
            LoadAndOpen(c, sealed, path, secret) == Master(master)
  {
    var kek := c.kdf(secret, salt, time, memory, threads);
    assert |kek| == KEY_SIZE;
    assert c.gcmOpen(kek, nonce, c.gcmSeal(kek, nonce, master)) == Some(master);
  }

  // What a session with one key uploads from a path, under whatever key in the bucket, a session with
  // the other downloads to the same bytes, with the row's hash to match, onto any disk.
  ghost predicate Exchanges(one: Config, two: Config, w: World, p: string, key: string, f1: Fresh, f2: Fresh,
                            disk: map<string, Bytes>, rows: StateSnapshot)
    requires p in w.files
  {
    var entry := LocalEntry(|w.files[p]|, one.prim.hash(w.files[p]));
    var (w1, s1) := RunOp(one, w, Op(Upload, p, key), entry, f1);
    var (w2, s2) := RunOp(two, w1.(files := disk, rows := rows), Op(Download, p, key), LocalEntry(0, ""), f2);
    && s1 == Finished && s2 == Finished
    && p in w2.files && w2.files[p] == w.files[p]
    && p in w2.rows && w2.rows[p].hash == entry.hash
  }

  lemma SameKeyExchanges(one: Config, two: Config, w: World, p: string, key: string, f1: Fresh, f2: Fresh,
                         disk: map<string, Bytes>, rows: StateSnapshot)
    requires ValidConfig(one) && two.prim == one.prim && two.master == one.master && p in w.files
    ensures Exchanges(one, two, w, p, key, f1, f2, disk, rows)
  {
    hide RunOp, OpenObject, SealObject;
    var c, plain := one.prim, w.files[p];
    var entry := LocalEntry(|plain|, c.hash(plain));
    UploadEffect(one, w, Op(Upload, p, key), entry, f1);
    SealedObjectOpens(c, one.master, plain, entry.hash, entry.size, f1);
    var w1 := RunOp(one, w, Op(Upload, p, key), entry, f1).0.(files := disk, rows := rows);
    DownloadEffect(two, w1, Op(Download, p, key), LocalEntry(0, ""), f2);
  }

  // The two ways of unlocking: which file, and which secret.
  datatype Unlock = Unlock(path: string, secret: string)

  predicate Current(u: Unlock, passphrase: string, code: string, newCode: Option<string>) {
    u == Unlock(KEY_FILE, passphrase) || u == Unlock(RECOVERY_FILE, if newCode.Some? then newCode.value else code)
  }

  // Unlocking exactly: the file is there, decodes, and opens under the key its own parameters derive from
  // the secret.  Whatever else happens has its own error.
  lemma LoadsExactly(c: Primitives, files: map<string, KeyFile>, path: string, secret: string, k: Bytes)
    ensures var r := LoadAndOpen(c, files, path, secret);
            && (r == NoFile <==> path !in files)
            && (r == Undecodable <==> path in files && files[path].Garbled?)
            && (r == Master(k) <==>
                  && path in files && files[path].Decodable?
                  && var b := files[path].blob;
                     var kek := c.kdf(secret, b.salt, b.time, b.memory, b.threads);
                     |kek| == KEY_SIZE && |b.nonce| == NONCE_SIZE && c.gcmOpen(kek, b.nonce, b.ct) == Some(k))
  {
  }

  // No secret but the one it was sealed with opens a file, as far as the cipher and the key derivation
  // keep theirs apart.
  lemma OnlyItsSecretOpens(c: Primitives, files: map<string, KeyFile>, path: string, secret: string, master: Bytes,
                           d: Draw, other: string)
    requires Lawful(c)
    requires Guards(c, secret, d.salt, ARGON_TIME, ARGON_MEM, ARGON_THREADS, d.nonce, master)
    ensures LoadAndOpen(c, Resealed(c, files, path, secret, master, d), path, other)
            == if other == secret then Master(master) else BadSecret
  {
    ResealedOpens(c, files, path, secret, master, d);
    assert |c.kdf(other, d.salt, ARGON_TIME, ARGON_MEM, ARGON_THREADS)| == KEY_SIZE;
  }

  // What a key file holds: the drawn salt and nonce, today's Argon2 parameters, and the master key under
  // the key they derive from the secret.
  lemma ResealedHolds(c: Primitives, files: map<string, KeyFile>, path: string, secret: string, master: Bytes, d: Draw)
    requires Lawful(c)
    ensures var after := Resealed(c, files, path, secret, master, d);
            && path in after && after[path].Decodable?
            && var b := after[path].blob;
               && b.salt == d.salt && b.nonce == d.nonce && b.time == 3 && b.memory == 65536 && b.threads == 4
               && c.gcmOpen(c.kdf(secret, d.salt, 3, 65536, 4), d.nonce, b.ct) == Some(master)
  {
    assert |c.kdf(secret, d.salt, 3, 65536, 4)| == KEY_SIZE;
  }

  // Either secret reads everything.  Create a master key under a passphrase and a code, and perhaps
  // replace the code later: any session unlocked by the passphrase or by the current code holds the
  // master key, and exchanges every file, at any path and key, with any other such session.
  lemma EitherSecretReadsEverything(c: Primitives, files: map<string, KeyFile>, passphrase: string, code: string,
                                    master: Bytes, d1: Draw, d2: Draw, newCode: Option<string>, d3: Draw,
                                    u1: Unlock, u2: Unlock)
    requires Lawful(c) && |master| == KEY_SIZE
    requires Current(u1, passphrase, code, newCode) && Current(u2, passphrase, code, newCode)
    ensures var created := Created(c, files, passphrase, code, master, d1, d2);
            var dir := if newCode.Some? then Resealed(c, created, RECOVERY_FILE, newCode.value, master, d3) else created;
            var r1, r2 := LoadAndOpen(c, dir, u1.path, u1.secret), LoadAndOpen(c, dir, u2.path, u2.secret);
            && r1 == r2 == Master(master)
            && forall machine, watched, w: World, p, key, f1: Fresh, f2: Fresh, disk, rows | p in w.files ::
                 Exchanges(Config(c, machine, r1.key, watched), Config(c, machine, r2.key, watched), w, p, key, f1, f2, disk, rows)
  {
    CurrentSecretsOpen(c, files, passphrase, code, master, d1, d2, newCode, d3);
    forall machine, watched, w: World, p, key, f1: Fresh, f2: Fresh, disk, rows | p in w.files
      ensures Exchanges(Config(c, machine, master, watched), Config(c, machine, master, watched), w, p, key, f1, f2, disk, rows)
    {
      var cfg := Config(c, machine, master, watched);
      SameKeyExchanges(cfg, cfg, w, p, key, f1, f2, disk, rows);
    }
  }

  lemma CurrentSecretsOpen(c: Primitives, files: map<string, KeyFile>, passphrase: string, code: string,
                           master: Bytes, d1: Draw, d2: Draw, newCode: Option<string>, d3: Draw)
    requires Lawful(c)
    ensures var created := Created(c, files, passphrase, code, master, d1, d2);
            var dir := if newCode.Some? then Resealed(c, created, RECOVERY_FILE, newCode.value, master, d3) else created;
            && LoadAndOpen(c, dir, KEY_FILE, passphrase) == Master(master)
            && LoadAndOpen(c, dir, RECOVERY_FILE, if newCode.Some? then newCode.value else code) == Master(master)
  {
    assert |KEY_FILE| != |RECOVERY_FILE|;
    var first := Resealed(c, files, KEY_FILE, passphrase, master, d1);
    ResealedOpens(c, files, KEY_FILE, passphrase, master, d1);
    ResealedOpens(c, first, RECOVERY_FILE, code, master, d2);
    if newCode.Some? {
      ResealedOpens(c, Created(c, files, passphrase, code, master, d1, d2), RECOVERY_FILE, newCode.value, master, d3);
    }
  }

  lemma ResealedOpens(c: Primitives, files: map<string, KeyFile>, path: string, secret: string, master: Bytes, d: Draw)
    requires Lawful(c)
    ensures LoadAndOpen(c, Resealed(c, files, path, secret, master, d), path, secret) == Master(master)
    ensures forall p, s | p != path :: LoadAndOpen(c, Resealed(c, files, path, secret, master, d), p, s) == LoadAndOpen(c, files, p, s)
  {
    AnyParametersOpen(c, files, path, secret, master, d.salt, d.nonce, ARGON_TIME, ARGON_MEM, ARGON_THREADS);
  }
}
