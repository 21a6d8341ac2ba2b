/** Envelope encryption: field framing (src/tiresias/encryption/aead.py), wrapping by a
    local key-encryption key (src/tiresias/encryption/providers/local.py), and the life of a
    tenant's data-encryption key (src/tiresias/encryption/envelope.py, src/tiresias/bootstrap.py).

    The cipher and the text encoding are parameters; their laws are assumed by name. */
module Envelope {
  import opened Wrappers

  type Byte = x: int | 0 <= x < 256
  type Bytes = seq<Byte>

  const NONCE_SIZE := 12

  /** An authenticated cipher: key, nonce and message; opening may fail. */
  datatype Cipher = Cipher(seal: (Bytes, Bytes, Bytes) -> Bytes, unseal: (Bytes, Bytes, Bytes) -> Option<Bytes>)
  datatype Codec = Codec(encode: string -> Bytes, decode: Bytes -> Option<string>)
  datatype Crypto = Crypto(cipher: Cipher, codec: Codec)

  /** What is sealed opens under its own key and under no other. */
  ghost predicate Lawful(c: Crypto) {
    && (forall k, n, m :: c.cipher.unseal(k, n, c.cipher.seal(k, n, m)) == Some(m))
    && (forall k, k', n, m :: k != k' ==> c.cipher.unseal(k', n, c.cipher.seal(k, n, m)) == None)
    && (forall s :: c.codec.decode(c.codec.encode(s)) == Some(s))
  }

  // ----- a cipher and a codec that keep the laws, so assuming them is consistent

  /** The key spelt out byte by byte, with an end mark. */
  function Tag(key: Bytes): Bytes {
    if key == [] then [0] else [1, key[0]] + Tag(key[1..])
  }

  function UntagUnder(key: Bytes, box: Bytes): Option<Bytes> {
    if Tag(key) <= box then Some(box[|Tag(key)|..]) else None
  }

  /** No tag starts another. */
  lemma {:induction false} TagOpensItsOwnOnly(key: Bytes, other: Bytes, message: Bytes)
    ensures UntagUnder(other, Tag(key) + message) == if other == key then Some(message) else None
    decreases |key|
  {
    if key == [] || other == [] {
      assert (Tag(key) + message)[0] == Tag(key)[0];
      assert other != key ==> Tag(other)[0] != Tag(key)[0];
    } else {
      var box, rest := Tag(key) + message, Tag(key[1..]) + message;
      assert box == [1, key[0]] + rest;
      TagOpensItsOwnOnly(key[1..], other[1..], message);
      TagPeels(key[0], other, rest);
      assert other == key <==> other[0] == key[0] && other[1..] == key[1..];
    }
  }

  lemma {:induction false} TagPeels(first: Byte, other: Bytes, rest: Bytes)
    requires other != []
    ensures UntagUnder(other, [1, first] + rest) == if other[0] == first then UntagUnder(other[1..], rest) else None
  {
    var box, tail := [1, first] + rest, Tag(other[1..]);
    assert Tag(other) == [1, other[0]] + tail;
    if Tag(other) <= box {
      assert box[1] == Tag(other)[1];
      assert tail == Tag(other)[2..] == box[2..][..|tail|];
      assert box[2..] == rest;
    } else if tail <= rest {
      assert box == [1, first] + tail + rest[|tail|..];
    }
  }

  /** Three bytes a character. */
  function SpeltChar(c: char): (b: Bytes)
    ensures |b| == 3 && c as int == 0x10000 * (b[0] as int) + 0x100 * (b[1] as int) + b[2] as int
  {
    var high := c as int / 0x10000;
    var low := c as int - 0x10000 * high;
    var middle := low / 0x100;
    [high, middle, low - 0x100 * middle]
  }

  function Spelt(s: string): Bytes {
    if s == "" then [] else SpeltChar(s[0]) + Spelt(s[1..])
  }

  lemma SpeltFirst(s: string)
    requires s != ""
    ensures Spelt(s) != [] && Spelt(s)[..3] == SpeltChar(s[0]) && Spelt(s)[3..] == Spelt(s[1..])
  {
  }

  lemma {:induction false} SpeltIsInjective(s: string, t: string)
    requires Spelt(s) == Spelt(t)
    ensures s == t
  {
    if s != "" {
      SpeltFirst(s);
    }
    if t != "" {
      SpeltFirst(t);
    }
    if s != "" {
      assert SpeltChar(s[0]) == SpeltChar(t[0]);
      SpeltIsInjective(s[1..], t[1..]);
      assert s == [s[0]] + s[1..] && t == [t[0]] + t[1..];
    }
  }

  ghost function Read(b: Bytes): Option<string> {
    if exists s :: Spelt(s) == b then var s :| Spelt(s) == b; Some(s) else None
  }

  lemma {:induction false} SomeCryptoIsLawful() returns (c: Crypto)
    ensures Lawful(c)
  {
    c := Crypto(Cipher((k, n, m) => Tag(k) + m, (k, n, b) => UntagUnder(k, b)), Codec(s => Spelt(s), b => Read(b)));
    forall k, k', n, m ensures c.cipher.unseal(k', n, c.cipher.seal(k, n, m)) == if k' == k then Some(m) else None {
      TagOpensItsOwnOnly(k, k', m);
    }
    forall s ensures c.codec.decode(c.codec.encode(s)) == Some(s) {
      var t :| Spelt(t) == Spelt(s) && Read(Spelt(s)) == Some(t);
      SpeltIsInjective(s, t);
    }
  }

  // ----- framing

  function Seal(c: Crypto, message: Bytes, key: Bytes, nonce: Bytes): Bytes {
    nonce + c.cipher.seal(key, nonce, message)
  }

  /** Splits off the nonce prefix. A blob too short to hold one cannot be opened. */
  function Unseal(c: Crypto, blob: Bytes, key: Bytes): Option<Bytes> {
    if |blob| < NONCE_SIZE then None
    else c.cipher.unseal(key, blob[..NONCE_SIZE], blob[NONCE_SIZE..])
  }

  function EncryptField(c: Crypto, plaintext: string, dek: Bytes, nonce: Bytes): Bytes {
    Seal(c, c.codec.encode(plaintext), dek, nonce)
  }

  function DecryptField(c: Crypto, blob: Bytes, dek: Bytes): Option<string> {
    match Unseal(c, blob, dek)
    case None => None
    case Some(m) => c.codec.decode(m)
  }

  lemma {:induction false} SealOpensUnderItsKeyOnly(c: Crypto, message: Bytes, key: Bytes, nonce: Bytes, other: Bytes)
    requires Lawful(c) && |nonce| == NONCE_SIZE
    ensures Unseal(c, Seal(c, message, key, nonce), other) == if other == key then Some(message) else None
  {
    var ct := c.cipher.seal(key, nonce, message);
    assert (nonce + ct)[..NONCE_SIZE] == nonce && (nonce + ct)[NONCE_SIZE..] == ct;
  }

  /** Sealed data starts with its nonce, and only data that can hold one opens. */
  lemma {:induction false} NonceComesFirst(c: Crypto, message: Bytes, key: Bytes, nonce: Bytes, blob: Bytes)
    requires |nonce| == 12
    ensures |Seal(c, message, key, nonce)| >= 12 && Seal(c, message, key, nonce)[..12] == nonce
    ensures Unseal(c, blob, key).Some? ==> |blob| >= 12 && Unseal(c, blob, key) == c.cipher.unseal(key, blob[..12], blob[12..])
  {
    assert (nonce + c.cipher.seal(key, nonce, message))[..12] == nonce;
  }

  /** A field decrypts to its plaintext under its own key, and to nothing under another. */
  lemma {:induction false} FieldRoundTrip(c: Crypto, plaintext: string, dek: Bytes, nonce: Bytes, other: Bytes)
    requires Lawful(c) && |nonce| == NONCE_SIZE
    ensures DecryptField(c, EncryptField(c, plaintext, dek, nonce), other) == if other == dek then Some(plaintext) else None
  {
    SealOpensUnderItsKeyOnly(c, c.codec.encode(plaintext), dek, nonce, other);
  }

  // ----- the licence row and the transactions on it

  /** A provider of the key-encryption key `kek`. */
  datatype Provider = Provider(kek: Bytes, name: string)

  datatype Licence = Licence(kekProvider: string, wrapped: Option<Bytes>, apiKeyHash: Option<string>, retentionDays: int)
  type Licences = map<string, Licence>
  type Cache = map<string, Bytes>

  /** Result, table and cache after a call; no result stands for a raised exception. */
  datatype Outcome = Outcome(dek: Option<Bytes>, db: Licences, cache: Cache)

  const NEW_LICENCE := Licence("local", None, None, 30)

  function HasDek(db: Licences, tenant: string): bool {
    tenant in db && db[tenant].wrapped.Some?
  }

  /** The row that create_dek_for_tenant writes, whatever was there before. */
  function WithDek(c: Crypto, db: Licences, p: Provider, tenant: string, dek: Bytes, nonce: Bytes): Licences {
    var row := if tenant in db then db[tenant] else NEW_LICENCE;
    db[tenant := row.(wrapped := Some(Seal(c, dek, p.kek, nonce)), kekProvider := p.name)]
  }

  function GetOrCreate(c: Crypto, db: Licences, cache: Cache, p: Provider, tenant: string, newDek: Bytes, nonce: Bytes): Outcome {
    if tenant in cache then Outcome(Some(cache[tenant]), db, cache)
    else if HasDek(db, tenant) then
      match Unseal(c, db[tenant].wrapped.value, p.kek)
      case None => Outcome(None, db, cache)
      case Some(dek) => Outcome(Some(dek), db, cache[tenant := dek])
    else Outcome(Some(newDek), WithDek(c, db, p, tenant, newDek, nonce), cache[tenant := newDek])
  }

  function Rotate(c: Crypto, db: Licences, cache: Cache, tenant: string, from: Provider, to: Provider, nonce: Bytes): Outcome {
    if !HasDek(db, tenant) then Outcome(None, db, cache)
    else
      match Unseal(c, db[tenant].wrapped.value, from.kek)
      case None => Outcome(None, db, cache)
      case Some(dek) => Outcome(Some(dek), WithDek(c, db, to, tenant, dek, nonce), cache[tenant := dek])
  }

  /** The first commit of first_boot: nothing if the tenant has a row, otherwise a row with a
      key. */
  function BootStarted(c: Crypto, db: Licences, tenant: string, p: Provider, newDek: Bytes, nonce: Bytes): Licences {
    if tenant in db then db else WithDek(c, db, p, tenant, newDek, nonce)
  }

  /** Its second commit, by the boot that made the row. */
  function BootFinished(db: Licences, tenant: string, keyHash: string, retentionDays: int): Licences
    requires tenant in db
  {
    db[tenant := db[tenant].(apiKeyHash := Some(keyHash), retentionDays := retentionDays)]
  }

  class LicenceTable {
    var rows: Licences

    constructor (rows: Licences)
      ensures this.rows == rows
    {
      this.rows := rows;
    }
  }

  /** One EnvelopeEncryption instance: a provider and a process-lifetime key cache. The
      random key and nonce of a call are its arguments. */
  class EnvelopeEncryption {
    const provider: Provider
    var dekCache: Cache

    constructor (provider: Provider)
      ensures this.provider == provider && dekCache == map[]
    {
      this.provider, dekCache := provider, map[];
    }

    method CreateDekForTenant(c: Crypto, session: LicenceTable, tenant: string, dek: Bytes, nonce: Bytes)
      modifies this, session
      ensures session.rows == WithDek(c, old(session.rows), provider, tenant, dek, nonce)
      ensures dekCache == old(dekCache)[tenant := dek]
    {
      var wrapped := Seal(c, dek, provider.kek, nonce);
      var row := Licence(provider.name, None, None, 30);
      if tenant in session.rows {
        row := session.rows[tenant];
      }
      row := row.(wrapped := Some(wrapped));
      row := row.(kekProvider := provider.name);
      session.rows := session.rows[tenant := row];
      dekCache := dekCache[tenant := dek];
    }

    method GetOrCreateDek(c: Crypto, session: LicenceTable, tenant: string, newDek: Bytes, nonce: Bytes)
      returns (dek: Option<Bytes>)
      modifies this, session
      ensures Outcome(dek, session.rows, dekCache)
              == GetOrCreate(c, old(session.rows), old(dekCache), provider, tenant, newDek, nonce)
    {
      if tenant in dekCache {
        return Some(dekCache[tenant]);
      }
      if tenant in session.rows && session.rows[tenant].wrapped.Some? {
        dek := Unseal(c, session.rows[tenant].wrapped.value, provider.kek);
        if dek.Some? {
          dekCache := dekCache[tenant := dek.value];
        }
        return;
      }
      CreateDekForTenant(c, session, tenant, newDek, nonce);
      dek := Some(newDek);
    }

    method RotateDek(c: Crypto, session: LicenceTable, tenant: string, from: Provider, to: Provider, nonce: Bytes)
      returns (ok: bool)
      modifies this, session
      ensures var r := Rotate(c, old(session.rows), old(dekCache), tenant, from, to, nonce);
        ok == r.dek.Some? && session.rows == r.db && dekCache == r.cache
      ensures ok <==>
        && tenant in old(session.rows) && old(session.rows)[tenant].wrapped.Some?
        && Unseal(c, old(session.rows)[tenant].wrapped.value, from.kek).Some?
      ensures !ok ==> session.rows == old(session.rows) && dekCache == old(dekCache)
      ensures ok ==> var dek := Unseal(c, old(session.rows)[tenant].wrapped.value, from.kek).value;
        && session.rows[tenant := old(session.rows)[tenant]] == old(session.rows)
        && session.rows[tenant]
           == old(session.rows)[tenant].(wrapped := Some(Seal(c, dek, to.kek, nonce)), kekProvider := to.name)
        && dekCache == old(dekCache)[tenant := dek]
    {
      if tenant !in session.rows || session.rows[tenant].wrapped.None? {
        return false;
      }
      var dek := Unseal(c, session.rows[tenant].wrapped.value, from.kek);
      if dek.None? {
        return false;
      }
      var row := session.rows[tenant].(wrapped := Some(Seal(c, dek.value, to.kek, nonce)), kekProvider := to.name);
      session.rows := session.rows[tenant := row];
      dekCache := dekCache[tenant := dek.value];
      ok := true;
    }
  }

  /** first_boot up to its first commit, with the random values it draws. */
  method StartBoot(c: Crypto, session: LicenceTable, tenant: string, p: Provider, newDek: Bytes, nonce: Bytes)
    returns (started: bool)
    modifies session
    ensures started <==> tenant !in old(session.rows)
    ensures session.rows == BootStarted(c, old(session.rows), tenant, p, newDek, nonce)
  {
    if tenant in session.rows {
      return false;
    }
    var envelope := new EnvelopeEncryption(p);
    envelope.CreateDekForTenant(c, session, tenant, newDek, nonce);
    started := true;
  }

  /** The rest of first_boot: the key hash and the retention, in a commit of their own. */
  method FinishBoot(session: LicenceTable, tenant: string, keyHash: string, retentionDays: int)
    requires tenant in session.rows
    modifies session
    ensures session.rows == BootFinished(old(session.rows), tenant, keyHash, retentionDays)
  {
    var row := session.rows[tenant];
    row := row.(apiKeyHash := Some(keyHash));
    row := row.(retentionDays := retentionDays);
    session.rows := session.rows[tenant := row];
  }

  /** A whole boot: the tenant ends up with a key that its provider unwraps, with the hash of its
      API key and with its retention; a tenant with a row is left alone. */
  method Boot(c: Crypto, session: LicenceTable, tenant: string, p: Provider, newDek: Bytes, nonce: Bytes,
              keyHash: string, retentionDays: int) returns (booted: bool)
    requires Lawful(c) && |nonce| == NONCE_SIZE
    modifies session
    ensures booted <==> tenant !in old(session.rows)
    ensures !booted ==> session.rows == old(session.rows)
    ensures booted ==> session.rows.Keys == old(session.rows).Keys + {tenant}
    ensures booted ==> forall t :: t in old(session.rows) ==> session.rows[t] == old(session.rows)[t]
    ensures booted ==> var row := session.rows[tenant];
      && row.wrapped.Some? && Unseal(c, row.wrapped.value, p.kek) == Some(newDek)
      && row.kekProvider == p.name && row.apiKeyHash == Some(keyHash) && row.retentionDays == retentionDays
  {
    booted := StartBoot(c, session, tenant, p, newDek, nonce);
    if booted {
      FinishBoot(session, tenant, keyHash, retentionDays);
      SealOpensUnderItsKeyOnly(c, newDek, p.kek, nonce, p.kek);
    }
  }

  // ----- every sequence of transactions

  type EnvelopeId = nat

  datatype Instance = Instance(provider: Provider, cache: Cache)

  /** A stored field, with the plaintext it was made from. */
  datatype Stored = Stored(tenant: string, blob: Bytes, plaintext: string)

  /** `booting` holds the tenants between the two commits of their boot. `deks` and `wrappers`
      are history: the first key of each tenant and the provider that last wrapped it. */
  datatype Sys = Sys(
    db: Licences,
    envelopes: map<EnvelopeId, Instance>,
    booting: set<string>,
    stored: seq<Stored>,
    deks: map<string, Bytes>,
    wrappers: map<string, Provider>)

  datatype Action =
    | NewEnvelope(id: EnvelopeId, provider: Provider)
    | GetDek(id: EnvelopeId, tenant: string, newDek: Bytes, nonce: Bytes)
    | StoreField(id: EnvelopeId, tenant: string, newDek: Bytes, nonce: Bytes, plaintext: string, fieldNonce: Bytes)
    | RotateDek(id: EnvelopeId, tenant: string, from: Provider, to: Provider, nonce: Bytes)
    | StartBootOf(tenant: string, provider: Provider, newDek: Bytes, nonce: Bytes)
    | FinishBootOf(tenant: string, keyHash: string, retentionDays: int)
    | Provision(tenant: string, row: Licence)      // a row put in by other means, without a key

  predicate Enabled(s: Sys, a: Action) {
    match a
    case NewEnvelope(id, _) => id !in s.envelopes
    case GetDek(id, _, _, nonce) => id in s.envelopes && |nonce| == NONCE_SIZE
    case StoreField(id, _, _, nonce, _, fieldNonce) =>
      id in s.envelopes && |nonce| == NONCE_SIZE && |fieldNonce| == NONCE_SIZE
    case RotateDek(id, _, _, _, nonce) => id in s.envelopes && |nonce| == NONCE_SIZE
    case StartBootOf(_, _, _, nonce) => |nonce| == NONCE_SIZE
    case FinishBootOf(tenant, _, _) => tenant in s.booting && tenant in s.db
    case Provision(tenant, row) => tenant !in s.db && row.wrapped.None?
  }

  function GetOrCreateIn(c: Crypto, s: Sys, id: EnvelopeId, tenant: string, newDek: Bytes, nonce: Bytes): (Sys, Option<Bytes>)
    requires id in s.envelopes
  {
    var e := s.envelopes[id];
    var r := GetOrCreate(c, s.db, e.cache, e.provider, tenant, newDek, nonce);
    var s' := s.(db := r.db, envelopes := s.envelopes[id := e.(cache := r.cache)]);
    if tenant !in e.cache && !HasDek(s.db, tenant) then
      (s'.(deks := s.deks[tenant := newDek], wrappers := s.wrappers[tenant := e.provider]), r.dek)
    else (s', r.dek)
  }

  function Apply(c: Crypto, s: Sys, a: Action): Sys
    requires Enabled(s, a)
  {
    match a
    case NewEnvelope(id, provider) => s.(envelopes := s.envelopes[id := Instance(provider, map[])])
    case GetDek(id, tenant, newDek, nonce) => GetOrCreateIn(c, s, id, tenant, newDek, nonce).0
    case StoreField(id, tenant, newDek, nonce, plaintext, fieldNonce) =>
      var (s', dek) := GetOrCreateIn(c, s, id, tenant, newDek, nonce);
      if dek.None? then s'
      else s'.(stored := s.stored + [Stored(tenant, EncryptField(c, plaintext, dek.value, fieldNonce), plaintext)])
    case RotateDek(id, tenant, from, to, nonce) =>
      var e := s.envelopes[id];
      var r := Rotate(c, s.db, e.cache, tenant, from, to, nonce);
      if r.dek.None? then s
      else s.(db := r.db, envelopes := s.envelopes[id := e.(cache := r.cache)], wrappers := s.wrappers[tenant := to])
    case StartBootOf(tenant, p, newDek, nonce) =>
      var s' := s.(db := BootStarted(c, s.db, tenant, p, newDek, nonce));
      if tenant in s.db then s'
      else s'.(booting := s.booting + {tenant}, deks := s.deks[tenant := newDek], wrappers := s.wrappers[tenant := p])
    case FinishBootOf(tenant, keyHash, retentionDays) =>
      s.(db := BootFinished(s.db, tenant, keyHash, retentionDays), booting := s.booting - {tenant})
    case Provision(tenant, row) => s.(db := s.db[tenant := row])
  }

  ghost predicate Step(c: Crypto, s: Sys, s': Sys) {
    exists a :: Enabled(s, a) && s' == Apply(c, s, a)
  }

  ghost predicate Init(s: Sys) {
    s.envelopes == map[] && s.booting == {} && s.stored == [] && s.deks == map[] && s.wrappers == map[]
    && forall t :: t in s.db ==> s.db[t].wrapped.None?
  }

  ghost predicate IsRun(c: Crypto, run: seq<Sys>) {
    && run != [] && Init(run[0])
    && forall i :: 0 <= i < |run| - 1 ==> Step(c, run[i], run[i + 1])
  }

  /** The table holds the tenant's key, wrapped by the provider that last wrapped it, and
      names that provider. */
  ghost predicate WrappedInv(c: Crypto, s: Sys, t: string) {
    && (HasDek(s.db, t) <==> t in s.deks)
    && (t in s.deks ==>
          && t in s.wrappers && s.db[t].kekProvider == s.wrappers[t].name
          && exists n :: |n| == NONCE_SIZE && s.db[t].wrapped == Some(Seal(c, s.deks[t], s.wrappers[t].kek, n)))
  }

  predicate CacheInv(s: Sys, cache: Cache) {
    forall t :: t in cache ==> t in s.deks && cache[t] == s.deks[t]
  }

  /** A stored field was made from its plaintext with the tenant's one key. */
  ghost predicate StoredInv(c: Crypto, s: Sys, x: Stored) {
    && x.tenant in s.deks
    && exists n :: |n| == NONCE_SIZE && x.blob == EncryptField(c, x.plaintext, s.deks[x.tenant], n)
  }

  lemma {:induction false} StoredOpens(c: Crypto, s: Sys, x: Stored, key: Bytes)
    requires Lawful(c) && StoredInv(c, s, x)
    ensures DecryptField(c, x.blob, key) == if key == s.deks[x.tenant] then Some(x.plaintext) else None
  {
    var n :| |n| == NONCE_SIZE && x.blob == EncryptField(c, x.plaintext, s.deks[x.tenant], n);
    FieldRoundTrip(c, x.plaintext, s.deks[x.tenant], n, key);
  }

  ghost predicate Inv(c: Crypto, s: Sys) {
    && (forall t :: WrappedInv(c, s, t))
    && (forall id :: id in s.envelopes ==> CacheInv(s, s.envelopes[id].cache))
    && (forall i :: 0 <= i < |s.stored| ==> StoredInv(c, s, s.stored[i]))
  }

  /** What the stored wrapping yields: the tenant's key to the provider that last wrapped
      it, and nothing to any other. */
  lemma {:induction false} UnwrapStored(c: Crypto, s: Sys, t: string, kek: Bytes)
    requires Lawful(c) && WrappedInv(c, s, t) && t in s.deks
    ensures HasDek(s.db, t)
    ensures Unseal(c, s.db[t].wrapped.value, kek) == if kek == s.wrappers[t].kek then Some(s.deks[t]) else None
  {
    var n :| |n| == NONCE_SIZE && s.db[t].wrapped == Some(Seal(c, s.deks[t], s.wrappers[t].kek, n));
    SealOpensUnderItsKeyOnly(c, s.deks[t], s.wrappers[t].kek, n, kek);
  }

  /** Keys are only ever added. */
  predicate Extends(s: Sys, s': Sys) {
    forall t :: t in s.deks ==> t in s'.deks && s'.deks[t] == s.deks[t]
  }

  lemma {:induction false} StoredStays(c: Crypto, s: Sys, s': Sys)
    requires Extends(s, s') && s'.stored == s.stored && forall i :: 0 <= i < |s.stored| ==> StoredInv(c, s, s.stored[i])
    ensures forall i :: 0 <= i < |s'.stored| ==> StoredInv(c, s', s'.stored[i])
  {
    forall i | 0 <= i < |s'.stored| ensures StoredInv(c, s', s'.stored[i]) {
      assert StoredInv(c, s, s.stored[i]);
    }
  }

  lemma {:induction false} GetOrCreateKeepsInv(c: Crypto, s: Sys, id: EnvelopeId, tenant: string, newDek: Bytes, nonce: Bytes)
    requires Lawful(c) && Inv(c, s) && id in s.envelopes && |nonce| == NONCE_SIZE
    ensures var (s', dek) := GetOrCreateIn(c, s, id, tenant, newDek, nonce);
      && Inv(c, s') && Extends(s, s') && s'.stored == s.stored
      && (dek.Some? ==> tenant in s'.deks && dek.value == s'.deks[tenant])
  {
    var e := s.envelopes[id];
    var (s', dek) := GetOrCreateIn(c, s, id, tenant, newDek, nonce);
    assert CacheInv(s, e.cache) && WrappedInv(c, s, tenant);
    if tenant !in e.cache && HasDek(s.db, tenant) {
      UnwrapStored(c, s, tenant, e.provider.kek);
    }
    forall t ensures WrappedInv(c, s', t) {
      assert WrappedInv(c, s, t);
      if t == tenant && t !in s.deks {
        assert s'.db[t].wrapped == Some(Seal(c, newDek, e.provider.kek, nonce));
      }
    }
    forall i | i in s'.envelopes ensures CacheInv(s', s'.envelopes[i].cache) {
      assert CacheInv(s, s.envelopes[i].cache);
    }
    StoredStays(c, s, s');
  }

  lemma {:induction false} RotateKeepsInv(c: Crypto, s: Sys, a: Action)
    requires Lawful(c) && Inv(c, s) && Enabled(s, a) && a.RotateDek?
    ensures Inv(c, Apply(c, s, a)) && Extends(s, Apply(c, s, a))
  {
    var s' := Apply(c, s, a);
    assert WrappedInv(c, s, a.tenant);
    if HasDek(s.db, a.tenant) {
      UnwrapStored(c, s, a.tenant, a.from.kek);
    }
    forall t ensures WrappedInv(c, s', t) {
      assert WrappedInv(c, s, t);
      if t == a.tenant && s' != s {
        assert s'.db[t].wrapped == Some(Seal(c, s.deks[t], a.to.kek, a.nonce));
      }
    }
    forall i | i in s'.envelopes ensures CacheInv(s', s'.envelopes[i].cache) {
      assert CacheInv(s, s.envelopes[i].cache);
    }
    StoredStays(c, s, s');
  }

  lemma {:induction false} OtherStepsKeepInv(c: Crypto, s: Sys, a: Action)
    requires Lawful(c) && Inv(c, s) && Enabled(s, a)
    requires a.NewEnvelope? || a.StartBootOf? || a.FinishBootOf? || a.Provision?
    ensures Inv(c, Apply(c, s, a)) && Extends(s, Apply(c, s, a))
  {
    var s' := Apply(c, s, a);
    forall t ensures WrappedInv(c, s', t) {
      assert WrappedInv(c, s, t);
      if a.StartBootOf? && t == a.tenant && t !in s.db {
        assert s'.db[t].wrapped == Some(Seal(c, a.newDek, a.provider.kek, a.nonce));
      }
    }
    assert a.StartBootOf? ==> WrappedInv(c, s, a.tenant);
    forall i | i in s'.envelopes ensures CacheInv(s', s'.envelopes[i].cache) {
      assert i in s.envelopes ==> CacheInv(s, s.envelopes[i].cache);
    }
    StoredStays(c, s, s');
  }

  lemma {:induction false} StepKeepsInv(c: Crypto, s: Sys, s': Sys)
    requires Lawful(c) && Inv(c, s) && Step(c, s, s')
    ensures Inv(c, s') && Extends(s, s') && s.stored <= s'.stored
  {
    var a :| Enabled(s, a) && s' == Apply(c, s, a);
    match a
    case GetDek(id, tenant, newDek, nonce) => GetOrCreateKeepsInv(c, s, id, tenant, newDek, nonce);
    case StoreField(_, _, _, _, _, _) => StoreKeepsInv(c, s, a);
    case RotateDek(_, _, _, _, _) => RotateKeepsInv(c, s, a);
    case _ => OtherStepsKeepInv(c, s, a);
  }

  lemma {:induction false} StoreKeepsInv(c: Crypto, s: Sys, a: Action)
    requires Lawful(c) && Inv(c, s) && Enabled(s, a) && a.StoreField?
    ensures var s' := Apply(c, s, a); Inv(c, s') && Extends(s, s') && s.stored <= s'.stored
  {
    GetOrCreateKeepsInv(c, s, a.id, a.tenant, a.newDek, a.nonce);
    var (t, dek) := GetOrCreateIn(c, s, a.id, a.tenant, a.newDek, a.nonce);
    if dek.Some? {
      StoredMore(c, t, Apply(c, s, a), Stored(a.tenant, EncryptField(c, a.plaintext, dek.value, a.fieldNonce), a.plaintext));
    }
  }

  lemma {:induction false} StoredMore(c: Crypto, s: Sys, s': Sys, x: Stored)
    requires Inv(c, s) && StoredInv(c, s, x) && s' == s.(stored := s.stored + [x])
    ensures Inv(c, s')
  {
    forall t ensures WrappedInv(c, s', t) {
      assert WrappedInv(c, s, t);
    }
    forall i | i in s'.envelopes ensures CacheInv(s', s'.envelopes[i].cache) {
      assert CacheInv(s, s.envelopes[i].cache);
    }
    forall i | 0 <= i < |s'.stored| ensures StoredInv(c, s', s'.stored[i]) {
      assert i < |s.stored| ==> StoredInv(c, s, s.stored[i]);
    }
  }

  /** A tenant's key is write-once over every run: what it is at one moment it is at every
      later one, and everything stored stays stored. */
  lemma {:induction false} DekIsWriteOnce(c: Crypto, run: seq<Sys>, i: nat, j: nat)
    requires Lawful(c) && IsRun(c, run) && i <= j < |run|
    ensures Inv(c, run[j]) && Extends(run[i], run[j]) && run[i].stored <= run[j].stored
    decreases j
  {
    if j > 0 {
      DekIsWriteOnce(c, run, if i < j then i else j - 1, j - 1);
      assert Step(c, run[j - 1], run[j]);
      StepKeepsInv(c, run[j - 1], run[j]);
    }
  }

  /** Every field ever stored decrypts to its plaintext at every later moment: with the key
      cached in any envelope, and with the key a fresh envelope of the provider that last
      wrapped it loads from the table. */
  lemma {:induction false} StoredFieldsStayReadable(c: Crypto, run: seq<Sys>, i: nat, j: nat, n: nat, cache: Cache, newDek: Bytes, nonce: Bytes)
    requires Lawful(c) && IsRun(c, run) && i <= j < |run| && n < |run[i].stored|
    requires cache == map[] || exists id :: id in run[j].envelopes && run[j].envelopes[id].cache == cache
    ensures var x, s := run[i].stored[n], run[j];
      && x.tenant in s.wrappers
      && var loaded := GetOrCreate(c, s.db, cache, s.wrappers[x.tenant], x.tenant, newDek, nonce);
         loaded.dek.Some? && DecryptField(c, x.blob, loaded.dek.value) == Some(x.plaintext)
  {
    DekIsWriteOnce(c, run, i, j);
    var x, s := run[i].stored[n], run[j];
    assert StoredInv(c, s, s.stored[n]) && WrappedInv(c, s, x.tenant);
    UnwrapStored(c, s, x.tenant, s.wrappers[x.tenant].kek);
    StoredOpens(c, s, x, s.deks[x.tenant]);
    if cache != map[] {
      var id :| id in s.envelopes && s.envelopes[id].cache == cache;
      assert CacheInv(s, cache);
    }
  }

  // ----- a boot between its two commits

  /** A tenant in the middle of its boot has a row without a key hash. */
  ghost predicate BootInv(s: Sys) {
    forall t :: t in s.booting ==> t in s.db && s.db[t].apiKeyHash.None?
  }

  /** No transaction but the second commit of its own boot changes the key hash of a row. */
  lemma KeyHashStays(c: Crypto, s: Sys, a: Action, t: string)
    requires Enabled(s, a) && t in s.db
    ensures t in Apply(c, s, a).db
    ensures !(a.FinishBootOf? && a.tenant == t) ==> Apply(c, s, a).db[t].apiKeyHash == s.db[t].apiKeyHash
  {
  }

  /** Which tenants are in the middle of a boot; one whose boot begins has no key hash. */
  lemma BootingMoves(c: Crypto, s: Sys, a: Action)
    requires Enabled(s, a)
    ensures var s' := Apply(c, s, a);
      if a.StartBootOf? && a.tenant !in s.db then
        s'.booting == s.booting + {a.tenant} && a.tenant in s'.db && s'.db[a.tenant].apiKeyHash.None?
      else if a.FinishBootOf? then
        s'.booting == s.booting - {a.tenant} && a.tenant in s'.db && s'.db[a.tenant].apiKeyHash.Some?
      else s'.booting == s.booting
  {
  }

  lemma {:induction false} BootInvStep(c: Crypto, s: Sys, a: Action)
    requires BootInv(s) && Enabled(s, a)
    ensures BootInv(Apply(c, s, a))
  {
    BootingMoves(c, s, a);
    forall t | t in Apply(c, s, a).booting ensures t in Apply(c, s, a).db && Apply(c, s, a).db[t].apiKeyHash.None? {
      if t in s.booting {
        KeyHashStays(c, s, a, t);
      }
    }
  }

  lemma {:induction false} KeyHashStep(c: Crypto, s: Sys, a: Action, t: string)
    requires Enabled(s, a) && t in s.db && (s.db[t].apiKeyHash.None? <==> t in s.booting)
    ensures var s' := Apply(c, s, a); t in s'.db && (s'.db[t].apiKeyHash.None? <==> t in s'.booting)
  {
    BootingMoves(c, s, a);
    KeyHashStays(c, s, a, t);
  }

  lemma {:induction false} BootRun(c: Crypto, run: seq<Sys>, i: nat)
    requires IsRun(c, run) && i < |run|
    ensures BootInv(run[i])
  {
    if i > 0 {
      BootRun(c, run, i - 1);
      assert Step(c, run[i - 1], run[i]);
      var a :| Enabled(run[i - 1], a) && run[i] == Apply(c, run[i - 1], a);
      BootInvStep(c, run[i - 1], a);
    }
  }

  /** A boot cut off between its commits is never made up for: whatever boots, loads, rotations
      and writes follow, the tenant has no key hash exactly as long as that very boot has not
      made its second commit. */
  lemma {:induction false} HalfBootIsFinal(c: Crypto, run: seq<Sys>, i: nat, j: nat, t: string)
    requires IsRun(c, run) && i <= j < |run| && t in run[i].booting
    ensures t in run[j].db && (run[j].db[t].apiKeyHash.None? <==> t in run[j].booting)
    decreases j
  {
    if i == j {
      BootRun(c, run, j);
    } else {
      HalfBootIsFinal(c, run, i, j - 1, t);
      assert Step(c, run[j - 1], run[j]);
      var a :| Enabled(run[j - 1], a) && run[j] == Apply(c, run[j - 1], a);
      KeyHashStep(c, run[j - 1], a, t);
    }
  }

  /** The row `r` wraps `dek` for the provider `p` alone, and names it. */
  ghost predicate WrapsFor(c: Crypto, r: Licence, dek: Bytes, p: Provider) {
    && r.wrapped.Some? && r.kekProvider == p.name
    && forall k :: Unseal(c, r.wrapped.value, k) == if k == p.kek then Some(dek) else None
  }

  /** A rotation away from the provider that last wrapped the key succeeds in every reachable
      state: the same key is then wrapped for the new provider alone, the rest of the row, every
      other row and every other cache stay as they were, and this cache holds the key. */
  lemma {:induction false} RotationRewraps(c: Crypto, run: seq<Sys>, id: EnvelopeId, tenant: string, from: Provider, to: Provider, nonce: Bytes)
    requires Lawful(c) && IsRun(c, run) && Enabled(run[|run| - 1], RotateDek(id, tenant, from, to, nonce))
    requires tenant in run[|run| - 1].deks && tenant in run[|run| - 1].wrappers && from.kek == run[|run| - 1].wrappers[tenant].kek
    ensures var s := run[|run| - 1]; var s' := Apply(c, s, RotateDek(id, tenant, from, to, nonce));
      && s'.db.Keys == s.db.Keys && tenant in s.db
      && WrapsFor(c, s'.db[tenant], s.deks[tenant], to)
      && s'.db[tenant].apiKeyHash == s.db[tenant].apiKeyHash && s'.db[tenant].retentionDays == s.db[tenant].retentionDays
      && (forall t :: t in s.db && t != tenant ==> s'.db[t] == s.db[t])
      && s'.envelopes == s.envelopes[id := s.envelopes[id].(cache := s.envelopes[id].cache[tenant := s.deks[tenant]])]
      && s'.deks == s.deks && s'.stored == s.stored && s'.wrappers == s.wrappers[tenant := to]
  {
    var s := run[|run| - 1];
    DekIsWriteOnce(c, run, |run| - 1, |run| - 1);
    assert WrappedInv(c, s, tenant);
    UnwrapStored(c, s, tenant, from.kek);
    forall k ensures Unseal(c, Seal(c, s.deks[tenant], to.kek, nonce), k) == if k == to.kek then Some(s.deks[tenant]) else None {
      SealOpensUnderItsKeyOnly(c, s.deks[tenant], to.kek, nonce, k);
    }
  }

  /** A provider that did not wrap the stored key last gets an error, and neither the table
      nor its cache changes; the same holds for a rotation away from the wrong provider. */
  lemma {:induction false} MismatchedProviderFails(c: Crypto, run: seq<Sys>, tenant: string, p: Provider, to: Provider,
                                cache: Cache, newDek: Bytes, nonce: Bytes)
    requires Lawful(c) && IsRun(c, run)
    requires var s := run[|run| - 1]; tenant in s.deks && tenant !in cache && (tenant in s.wrappers ==> p.kek != s.wrappers[tenant].kek)
    ensures var s := run[|run| - 1];
      && GetOrCreate(c, s.db, cache, p, tenant, newDek, nonce) == Outcome(None, s.db, cache)
      && Rotate(c, s.db, cache, tenant, p, to, nonce) == Outcome(None, s.db, cache)
  {
    var j := |run| - 1;
    DekIsWriteOnce(c, run, j, j);
    assert WrappedInv(c, run[j], tenant);
    UnwrapStored(c, run[j], tenant, p.kek);
  }

  /** Every stored field of the tenant opens to its plaintext under `key`. */
  predicate Readable(c: Crypto, s: Sys, tenant: string, key: Bytes) {
    forall i :: 0 <= i < |s.stored| && s.stored[i].tenant == tenant ==>
      DecryptField(c, s.stored[i].blob, key) == Some(s.stored[i].plaintext)
  }

  predicate NothingStored(s: Sys, tenant: string) {
    forall i :: 0 <= i < |s.stored| ==> s.stored[i].tenant != tenant
  }

  /** create_dek_for_tenant, called in any reachable state, puts a key in the table that makes the
      tenant's stored fields unreadable, unless there are none or it is the tenant's key. */
  lemma {:induction false} CreationOverAKeyLosesFields(c: Crypto, run: seq<Sys>, p: Provider, tenant: string, newDek: Bytes, nonce: Bytes)
    requires Lawful(c) && IsRun(c, run) && |nonce| == NONCE_SIZE
    ensures var s := run[|run| - 1];
            var loaded := GetOrCreate(c, WithDek(c, s.db, p, tenant, newDek, nonce), map[], p, tenant, newDek, nonce).dek;
      && loaded == Some(newDek)
      && (Readable(c, s, tenant, newDek) <==> NothingStored(s, tenant) || (tenant in s.deks && newDek == s.deks[tenant]))
  {
    var s := run[|run| - 1];
    DekIsWriteOnce(c, run, |run| - 1, |run| - 1);
    SealOpensUnderItsKeyOnly(c, newDek, p.kek, nonce, p.kek);
    forall i | 0 <= i < |s.stored| && s.stored[i].tenant == tenant
      ensures tenant in s.deks
      ensures DecryptField(c, s.stored[i].blob, newDek) == Some(s.stored[i].plaintext) <==> newDek == s.deks[tenant]
    {
      assert StoredInv(c, s, s.stored[i]);
      StoredOpens(c, s, s.stored[i], newDek);
    }
  }

  /** The guard that both callers have is enough: with no key in the table nothing is stored. */
  lemma {:induction false} GuardedCreationIsSafe(c: Crypto, run: seq<Sys>, p: Provider, tenant: string, newDek: Bytes, nonce: Bytes)
    requires Lawful(c) && IsRun(c, run) && |nonce| == NONCE_SIZE && !HasDek(run[|run| - 1].db, tenant)
    ensures Readable(c, run[|run| - 1], tenant, newDek)
  {
    var s := run[|run| - 1];
    DekIsWriteOnce(c, run, |run| - 1, |run| - 1);
    assert WrappedInv(c, s, tenant);
    forall i | 0 <= i < |s.stored| ensures s.stored[i].tenant != tenant {
      assert StoredInv(c, s, s.stored[i]);
    }
  }
}
