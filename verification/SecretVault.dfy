/** The secret vault of engine/src/api/secrets.rs over the transactional storage of
    engine/crates/storage/src/sqlite/secret_transactions.rs. Handlers are atomic here, except that putting a key
    checks the mode first and writes later; key derivation, authenticated encryption and UTF-8 are functions known only
    by their laws. */
module SecretVault {
  import opened Wrappers

  type Bytes = seq<bv8>

  /** A derived master key; what is inside does not matter. */
  datatype Key = Key(material: Bytes)

  /** The cryptographic services that the handlers call. `None` is a failed operation. */
  datatype Crypto = Crypto(
    derive: (string, Bytes) -> Option<Key>,
    encrypt: (Key, Bytes, Bytes) -> Option<Bytes>,
    decrypt: (Key, Bytes, Bytes) -> Option<Bytes>,
    toUtf8: string -> Bytes,
    fromUtf8: Bytes -> Option<string>)

  const VERIFIER_PLAINTEXT: string := "encorehub-verifier-v1"
  const NONCE_LEN: nat := 12

  /** Decryption inverts encryption under the same key and nonce, and rejects what another key sealed. */
  ghost predicate Lawful(c: Crypto) {
    && (forall k, n, p | |n| == NONCE_LEN && c.encrypt(k, n, p).Some? ::
          c.decrypt(k, c.encrypt(k, n, p).value, n) == Some(p))
    && (forall k, k', n, p | |n| == NONCE_LEN && c.encrypt(k, n, p).Some? && k' != k ::
          c.decrypt(k', c.encrypt(k, n, p).value, n) == None)
    && (forall s :: c.fromUtf8(c.toUtf8(s)) == Some(s))
  }

  datatype SecretRow = SecretRow(plaintext: Option<string>, ciphertext: Option<Bytes>, nonce: Option<Bytes>)

  datatype CryptoMeta = CryptoMeta(enabled: bool, salt: Bytes, verifierCiphertext: Bytes, verifierNonce: Bytes)

  datatype ApiError =
    | AlreadyEncrypted | PasswordRequired | NotEnabled | IncorrectPassword | Locked | NotFound
    | CryptoFailed | CorruptSecret | InvalidTransition

  datatype Outcome = Ok | Err(error: ApiError)

  datatype KeyOutcome = Found(key: string) | Refused(error: ApiError)

  function EncryptedRow(ciphertext: Bytes, nonce: Bytes): SecretRow {
    SecretRow(None, Some(ciphertext), Some(nonce))
  }

  function PlaintextRow(plaintext: string): SecretRow {
    SecretRow(Some(plaintext), None, None)
  }

  /** The randomness of one request: a salt, a nonce for the verifier, and one nonce per provider. */
  datatype Randomness = Randomness(salt: Bytes, verifierNonce: Bytes, nonceFor: string -> Bytes)

  ghost predicate FreshNonces(r: Randomness) {
    |r.verifierNonce| == NONCE_LEN && forall pid :: |r.nonceFor(pid)| == NONCE_LEN
  }

  // ---------- Sealing and opening ----------

  predicate Verifies(c: Crypto, key: Key, meta: CryptoMeta) {
    c.decrypt(key, meta.verifierCiphertext, meta.verifierNonce) == Some(c.toUtf8(VERIFIER_PLAINTEXT))
  }

  /** What a row opens to under `key`: its plaintext, or its ciphertext decrypted and decoded. */
  function OpenRow(c: Crypto, key: Key, row: SecretRow): Option<string> {
    if row.plaintext.Some? then row.plaintext
    else if row.ciphertext.Some? && row.nonce.Some? then
      var pt := c.decrypt(key, row.ciphertext.value, row.nonce.value);
      if pt.Some? then c.fromUtf8(pt.value) else None
    else None
  }

  predicate PlainShape(row: SecretRow) {
    row.plaintext.Some? && row.ciphertext.None? && row.nonce.None?
  }

  predicate SealedShape(row: SecretRow) {
    row.plaintext.None? && row.ciphertext.Some? && row.nonce.Some?
  }

  /** Seals every plaintext under `key`, or reports that one encryption failed. */
  method SealAll(c: Crypto, key: Key, plaintexts: map<string, string>, nonceFor: string -> Bytes)
    returns (sealed: Option<map<string, SecretRow>>)
    requires Lawful(c) && forall pid :: |nonceFor(pid)| == NONCE_LEN
    ensures sealed.Some? <==>
      forall pid | pid in plaintexts :: c.encrypt(key, nonceFor(pid), c.toUtf8(plaintexts[pid])).Some?
    ensures sealed.Some? ==> Seals(c, key, sealed.value, plaintexts)
  {
    var rows: map<string, SecretRow> := map[];
    var left := plaintexts.Keys;
    while left != {}
      invariant left <= plaintexts.Keys && rows.Keys == plaintexts.Keys - left
      invariant forall pid | pid in rows ::
          && c.encrypt(key, nonceFor(pid), c.toUtf8(plaintexts[pid])).Some?
          && SealedShape(rows[pid]) && OpenRow(c, key, rows[pid]) == Some(plaintexts[pid])
      decreases left
    {
      var pid :| pid in left;
      var ciphertext := c.encrypt(key, nonceFor(pid), c.toUtf8(plaintexts[pid]));
      if ciphertext.None? {
        return None;
      }
      SealedRowOpens(c, key, nonceFor(pid), plaintexts[pid]);
      rows := rows[pid := EncryptedRow(ciphertext.value, nonceFor(pid))];
      left := left - {pid};
    }
    return Some(rows);
  }

  ghost predicate Seals(c: Crypto, key: Key, rows: map<string, SecretRow>, contents: map<string, string>) {
    && rows.Keys == contents.Keys
    && forall pid | pid in rows :: SealedShape(rows[pid]) && OpenRow(c, key, rows[pid]) == Some(contents[pid])
  }

  /** Plaintext rows that hold exactly `contents`. */
  ghost predicate Shows(rows: map<string, SecretRow>, contents: map<string, string>) {
    && rows.Keys == contents.Keys
    && forall pid | pid in rows :: rows[pid] == PlaintextRow(contents[pid])
  }

  /** `key` is the one key that the stored verifier accepts. */
  ghost predicate KeyedTo(c: Crypto, key: Key, meta: CryptoMeta) {
    Verifies(c, key, meta) && forall k | k != key :: !Verifies(c, k, meta)
  }

  /** Every encryption that re-keying to `key` calls for succeeds. */
  ghost predicate CanSeal(c: Crypto, key: Key, r: Randomness, contents: map<string, string>) {
    && c.encrypt(key, r.verifierNonce, c.toUtf8(VERIFIER_PLAINTEXT)).Some?
    && forall pid | pid in contents :: c.encrypt(key, r.nonceFor(pid), c.toUtf8(contents[pid])).Some?
  }

  lemma SealedRowOpens(c: Crypto, key: Key, nonce: Bytes, plaintext: string)
    requires Lawful(c) && |nonce| == NONCE_LEN && c.encrypt(key, nonce, c.toUtf8(plaintext)).Some?
    ensures OpenRow(c, key, EncryptedRow(c.encrypt(key, nonce, c.toUtf8(plaintext)).value, nonce)) == Some(plaintext)
  {}

  /** Opens every sealed row under `key`; rows of another shape are passed over, as the source filters them. */
  method OpenAll(c: Crypto, key: Key, rows: map<string, SecretRow>, ghost contents: map<string, string>)
    returns (plain: Option<map<string, string>>)
    requires Seals(c, key, rows, contents)
    ensures plain == Some(contents)
  {
    var plaintexts: map<string, string> := map[];
    var left := rows.Keys;
    while left != {}
      invariant left <= rows.Keys && plaintexts.Keys == rows.Keys - left
      invariant forall pid | pid in plaintexts :: plaintexts[pid] == contents[pid]
      decreases left
    {
      var pid :| pid in left;
      left := left - {pid};
      if rows[pid].ciphertext.Some? && rows[pid].nonce.Some? {
        var pt := c.decrypt(key, rows[pid].ciphertext.value, rows[pid].nonce.value);
        if pt.None? || c.fromUtf8(pt.value).None? {
          return None;
        }
        plaintexts := plaintexts[pid := c.fromUtf8(pt.value).value];
      }
    }
    assert plaintexts == contents;
    return Some(plaintexts);
  }

  /** The three transitions that storage applies in one transaction. */
  datatype Transition = Enabling(meta: CryptoMeta) | Rotating(meta: CryptoMeta) | Disabling

  predicate TransitionAllowed(rows: map<string, SecretRow>, encrypted: bool, target: map<string, SecretRow>, t: Transition) {
    && (forall pid | pid in target :: if t.Disabling? then PlainShape(target[pid]) else SealedShape(target[pid]))
    && (t.Disabling? || t.meta.enabled)
    && encrypted == !t.Enabling?
    && (forall pid | pid in rows :: if encrypted then SealedShape(rows[pid]) else PlainShape(rows[pid]))
    && if t.Enabling? then rows.Keys <= target.Keys else rows.Keys == target.Keys
  }

  /** The shape that a row has in a mode. */
  predicate ModeShape(encrypted: bool, row: SecretRow) {
    if encrypted then SealedShape(row) else PlainShape(row)
  }

  /** Storage accepts some transition exactly when every row has the shape of the mode: one stray row stops them all. */
  lemma TransitionsIff(rows: map<string, SecretRow>, encrypted: bool)
    ensures (exists target, t :: TransitionAllowed(rows, encrypted, target, t))
            <==> forall pid | pid in rows :: ModeShape(encrypted, rows[pid])
  {
    if forall pid | pid in rows :: ModeShape(encrypted, rows[pid]) {
      if encrypted {
        assert TransitionAllowed(rows, encrypted, map pid | pid in rows :: PlaintextRow(""), Disabling);
      } else {
        var sealed := map pid | pid in rows :: EncryptedRow([], []);
        assert TransitionAllowed(rows, encrypted, sealed, Enabling(CryptoMeta(true, [], [], [])));
      }
    }
  }

  // ---------- Putting a key ----------

  /** The row that storing `key` calls for when rows are sealed under `mode`, or are plain. */
  function PreparedRow(c: Crypto, mode: Option<Key>, key: string, nonce: Bytes): Option<SecretRow> {
    match mode
    case None => Some(PlaintextRow(key))
    case Some(k) =>
      var ciphertext := c.encrypt(k, nonce, c.toUtf8(key));
      if ciphertext.None? then None else Some(EncryptedRow(ciphertext.value, nonce))
  }

  /** The row stands for `key` among rows of this mode. */
  predicate RowFits(c: Crypto, mode: Option<Key>, row: SecretRow, key: string) {
    match mode
    case None => row == PlaintextRow(key)
    case Some(k) => SealedShape(row) && OpenRow(c, k, row) == Some(key)
  }

  /** A prepared row fits exactly the mode and the key that it was prepared for. */
  lemma PreparedRowFitsIff(c: Crypto, before: Option<Key>, now: Option<Key>, key: string, nonce: Bytes)
    requires Lawful(c) && |nonce| == NONCE_LEN && PreparedRow(c, before, key, nonce).Some?
    ensures RowFits(c, now, PreparedRow(c, before, key, nonce).value, key) <==> now == before
  {
    if before.Some? {
      SealedRowOpens(c, before.value, nonce, key);
    }
  }

  lemma SealedWith(c: Crypto, k: Key, rows: map<string, SecretRow>, contents: map<string, string>, pid: string,
                   row: SecretRow, key: string)
    requires Seals(c, k, rows, contents)
    ensures Seals(c, k, rows[pid := row], contents[pid := key]) <==> SealedShape(row) && OpenRow(c, k, row) == Some(key)
  {
    hide OpenRow, SealedShape;
    assert pid in rows[pid := row] && rows[pid := row][pid] == row;
  }

  lemma ShownWith(rows: map<string, SecretRow>, contents: map<string, string>, pid: string, row: SecretRow, key: string)
    requires Shows(rows, contents)
    ensures Shows(rows[pid := row], contents[pid := key]) <==> row == PlaintextRow(key)
  {
    hide PlaintextRow;
    assert pid in rows[pid := row] && rows[pid := row][pid] == row;
  }

  // ---------- Requests and their effect on the contents ----------

  datatype Request =
    | Enable(password: string, keys: map<string, string>, randomness: Randomness)
    | Disable(password: string)
    | Unlock(password: string)
    | Lock
    | ResetPassword(password: string, newPassword: string, randomness: Randomness)
    | Clear
    | PutKey(providerId: string, key: string, nonce: Bytes)
    | DeleteKey(providerId: string)

  ghost predicate WellFormed(r: Request) {
    match r
    case Enable(_, _, randomness) => FreshNonces(randomness)
    case ResetPassword(_, _, randomness) => FreshNonces(randomness)
    case PutKey(_, _, nonce) => |nonce| == NONCE_LEN
    case _ => true
  }

  /** What a successful request does to the provider keys: nothing, unless it seeds, puts, deletes or clears. */
  function Effect(contents: map<string, string>, r: Request): map<string, string> {
    match r
    case Enable(_, keys, _) => contents + keys
    case PutKey(pid, key, _) => contents[pid := key]
    case DeleteKey(pid) => contents - {pid}
    case Clear => map[]
    case _ => contents
  }

  function EffectOfRun(contents: map<string, string>, requests: seq<Request>, outcomes: seq<Outcome>): map<string, string>
    requires |requests| == |outcomes|
  {
    if |requests| == 0 then contents
    else
      var n := |requests| - 1;
      var before := EffectOfRun(contents, requests[..n], outcomes[..n]);
      if outcomes[n].Ok? then Effect(before, requests[n]) else before
  }

  /** Reference definition: the value that the newest successful request about `pid` left behind. */
  function LastWritten(requests: seq<Request>, outcomes: seq<Outcome>, pid: string): Option<string>
    requires |requests| == |outcomes|
  {
    if |requests| == 0 then None
    else
      var n := |requests| - 1;
      var earlier := LastWritten(requests[..n], outcomes[..n], pid);
      if outcomes[n].Err? then earlier
      else match requests[n]
        case Enable(_, keys, _) => if pid in keys then Some(keys[pid]) else earlier
        case PutKey(other, key, _) => if other == pid then Some(key) else earlier
        case DeleteKey(other) => if other == pid then None else earlier
        case Clear => None
        case _ => earlier
  }

  lemma {:induction false} RunHoldsLastWritten(requests: seq<Request>, outcomes: seq<Outcome>, pid: string)
    requires |requests| == |outcomes|
    ensures var contents := EffectOfRun(map[], requests, outcomes);
            LastWritten(requests, outcomes, pid) == if pid in contents then Some(contents[pid]) else None
  {
    if |requests| > 0 {
      var n := |requests| - 1;
      RunHoldsLastWritten(requests[..n], outcomes[..n], pid);
    }
  }

  // ---------- The vault ----------

  /** `Mutex<Option<MasterKey>>` and the two tables, with the map of provider keys that they stand for. */
  class Vault {
    const crypto: Crypto
    var rows: map<string, SecretRow>
    var meta: Option<CryptoMeta>
    var masterKey: Option<Key>

    /** The provider keys, as a user of the API understands them. */
    ghost var contents: map<string, string>
    /** In encrypted mode, the key that every row and the verifier are sealed under. */
    ghost var sealingKey: Key

    constructor (crypto: Crypto)
      requires Lawful(crypto)
      ensures Valid() && contents == map[] && this.crypto == crypto && !Encrypted() && masterKey.None?
    {
      this.crypto := crypto;
      rows, meta, masterKey, contents, sealingKey := map[], None, None, map[], Key([]);
    }

    predicate Encrypted()
      reads this
    {
      meta.Some? && meta.value.enabled
    }

    ghost predicate Valid()
      reads this
    {
      && Lawful(crypto)
      && (if Encrypted() then
            && KeyedTo(crypto, sealingKey, meta.value)
            && (masterKey.Some? ==> masterKey.value == sealingKey)
            && Seals(crypto, sealingKey, rows, contents)
          else masterKey.None? && Shows(rows, contents))
    }

    // ----- Storage -----

    /** Validates and applies one transition; a rejected one changes nothing. */
    method ApplySecretTransition(target: map<string, SecretRow>, t: Transition) returns (ok: bool)
      modifies this`rows, this`meta
      ensures ok <==> TransitionAllowed(old(rows), old(Encrypted()), target, t)
      ensures ok ==> rows == target && meta == if t.Disabling? then None else Some(t.meta)
      ensures ok ==> old(Encrypted()) == !t.Enabling? && Encrypted() == !t.Disabling?
      ensures ok ==> forall pid | pid in rows :: ModeShape(Encrypted(), rows[pid])
      ensures ok ==> forall pid | pid in old(rows) :: pid in rows && ModeShape(old(Encrypted()), old(rows)[pid])
      ensures ok && !t.Enabling? ==> rows.Keys == old(rows).Keys
      ensures !ok ==> rows == old(rows) && meta == old(meta)
    {
      ok := TransitionAllowed(rows, Encrypted(), target, t);
      if ok {
        rows := rows + target;
        meta := if t.Disabling? then None else Some(t.meta);
      }
    }

    // ----- Handlers -----

    method DeriveAndVerify(password: string) returns (key: Option<Key>, error: ApiError)
      requires Valid()
      ensures key.Some? ==> Encrypted() && key.value == sealingKey
      ensures key.Some? <==>
        Encrypted() && crypto.derive(password, meta.value.salt) == Some(sealingKey)
      ensures key.None? ==>
        error == if !Encrypted() then NotEnabled
                 else if crypto.derive(password, meta.value.salt).None? then CryptoFailed else IncorrectPassword
    {
      if meta.None? || !meta.value.enabled {
        return None, NotEnabled;
      }
      var derived := crypto.derive(password, meta.value.salt);
      if derived.None? {
        return None, CryptoFailed;
      }
      if !Verifies(crypto, derived.value, meta.value) {
        return None, IncorrectPassword;
      }
      return derived, NotEnabled;
    }

    /** A fresh verifier and metadata for `key`. */
    method MakeMeta(key: Key, r: Randomness) returns (made: Option<CryptoMeta>)
      requires Lawful(crypto) && FreshNonces(r)
      ensures made.Some? ==> made.value.enabled && made.value.salt == r.salt && KeyedTo(crypto, key, made.value)
      ensures made.Some? <==> crypto.encrypt(key, r.verifierNonce, crypto.toUtf8(VERIFIER_PLAINTEXT)).Some?
    {
      var verifier := crypto.encrypt(key, r.verifierNonce, crypto.toUtf8(VERIFIER_PLAINTEXT));
      if verifier.None? {
        return None;
      }
      return Some(CryptoMeta(true, r.salt, verifier.value, r.verifierNonce));
    }

    function PlaintextRows(): (m: map<string, string>)
      requires Valid() && !Encrypted()
      reads this
      ensures m == contents
    {
      map pid | pid in rows && rows[pid].plaintext.Some? :: rows[pid].plaintext.value
    }

    method EnableEncryption(password: string, keys: map<string, string>, r: Randomness) returns (outcome: Outcome)
      requires Valid() && FreshNonces(r)
      modifies this
      ensures Valid()
      ensures outcome.Ok? ==>
        && Encrypted() && masterKey == Some(sealingKey) && crypto.derive(password, meta.value.salt) == masterKey
        && contents == old(contents) + keys
      ensures outcome.Ok? <==>
        && !old(Encrypted()) && password != "" && crypto.derive(password, r.salt).Some?
        && CanSeal(crypto, crypto.derive(password, r.salt).value, r, old(contents) + keys)
      ensures outcome.Err? ==> unchanged(this)
      ensures outcome == Err(AlreadyEncrypted) <==> old(Encrypted())
      ensures outcome == Err(PasswordRequired) <==> !old(Encrypted()) && password == ""
      ensures outcome.Err? ==> outcome.error in {AlreadyEncrypted, PasswordRequired, CryptoFailed}
    {
      hide KeyedTo, Lawful;
      if Encrypted() {
        return Err(AlreadyEncrypted);
      }
      if password == "" {
        return Err(PasswordRequired);
      }
      var derived := crypto.derive(password, r.salt);
      if derived.None? {
        return Err(CryptoFailed);
      }
      var made := MakeMeta(derived.value, r);
      if made.None? {
        return Err(CryptoFailed);
      }
      var plaintexts := PlaintextRows() + keys;
      var sealed := SealAll(crypto, derived.value, plaintexts, r.nonceFor);
      if sealed.None? {
        return Err(CryptoFailed);
      }
      var ok := ApplySecretTransition(sealed.value, Enabling(made.value));
      if !ok {
        return Err(InvalidTransition);
      }
      masterKey := derived;
      contents, sealingKey := contents + keys, derived.value;
      return Ok;
    }

    method DisableEncryption(password: string) returns (outcome: Outcome)
      requires Valid()
      modifies this
      ensures Valid() && contents == old(contents)
      ensures outcome.Ok? ==> !Encrypted()
      ensures outcome.Ok? <==> old(Encrypted() && crypto.derive(password, meta.value.salt) == Some(sealingKey))
      ensures outcome.Err? ==> unchanged(this) && outcome.error in {NotEnabled, CryptoFailed, IncorrectPassword}
    {
      hide KeyedTo, Lawful, OpenRow, Verifies;
      var key, error := DeriveAndVerify(password);
      if key.None? {
        return Err(error);
      }
      var plain := OpenAll(crypto, key.value, rows, contents);
      if plain.None? {
        return Err(CryptoFailed);
      }
      var target := map pid | pid in plain.value :: PlaintextRow(plain.value[pid]);
      var ok := ApplySecretTransition(target, Disabling);
      if !ok {
        return Err(InvalidTransition);
      }
      masterKey := None;
      return Ok;
    }

    method UnlockSession(password: string) returns (outcome: Outcome)
      requires Valid()
      modifies this`masterKey
      ensures Valid()
      ensures outcome.Ok? ==> Encrypted() && masterKey == Some(sealingKey)
      ensures outcome.Ok? <==> Encrypted() && crypto.derive(password, meta.value.salt) == Some(sealingKey)
      ensures outcome.Err? ==> unchanged(this)
    {
      var key, error := DeriveAndVerify(password);
      if key.None? {
        return Err(error);
      }
      masterKey := key;
      return Ok;
    }

    method LockSession()
      requires Valid()
      modifies this`masterKey
      ensures Valid() && masterKey.None?
    {
      masterKey := None;
    }

    method ChangePassword(oldPassword: string, newPassword: string, r: Randomness) returns (outcome: Outcome)
      requires Valid() && FreshNonces(r)
      modifies this
      ensures Valid() && contents == old(contents)
      ensures outcome.Ok? ==>
        Encrypted() && masterKey == Some(sealingKey) && crypto.derive(newPassword, meta.value.salt) == Some(sealingKey)
      ensures outcome.Err? ==> unchanged(this)
      ensures newPassword == "" ==> outcome == Err(PasswordRequired)
      ensures outcome.Ok? <==>
        && newPassword != "" && old(Encrypted() && crypto.derive(oldPassword, meta.value.salt) == Some(sealingKey))
        && crypto.derive(newPassword, r.salt).Some?
        && CanSeal(crypto, crypto.derive(newPassword, r.salt).value, r, old(contents))
      ensures outcome != Err(InvalidTransition)
    {
      hide KeyedTo, Lawful;
      if newPassword == "" {
        return Err(PasswordRequired);
      }
      var key, error := DeriveAndVerify(oldPassword);
      if key.None? {
        return Err(error);
      }
      var newKey := crypto.derive(newPassword, r.salt);
      if newKey.None? {
        return Err(CryptoFailed);
      }
      var plain := OpenAll(crypto, key.value, rows, contents);
      if plain.None? {
        return Err(CryptoFailed);
      }
      var sealed := SealAll(crypto, newKey.value, plain.value, r.nonceFor);
      if sealed.None? {
        return Err(CryptoFailed);
      }
      var made := MakeMeta(newKey.value, r);
      if made.None? {
        return Err(CryptoFailed);
      }
      var ok := ApplySecretTransition(sealed.value, Rotating(made.value));
      if !ok {
        return Err(InvalidTransition);
      }
      masterKey := newKey;
      sealingKey := newKey.value;
      return Ok;
    }

    method ClearAll()
      requires Valid()
      modifies this
      ensures Valid() && contents == map[] && !Encrypted() && masterKey.None?
    {
      rows, meta, masterKey, contents := map[], None, None, map[];
    }

    /** The key that rows are sealed under, or none. */
    ghost function Mode(): Option<Key>
      reads this
    {
      if Encrypted() then Some(sealingKey) else None
    }

    /** The first half of storing a key: reads the mode and makes the row. */
    method PreparePut(key: string, nonce: Bytes) returns (outcome: Outcome, row: SecretRow)
      requires Valid() && |nonce| == NONCE_LEN
      ensures outcome.Ok? ==> Some(row) == PreparedRow(crypto, Mode(), key, nonce) && RowFits(crypto, Mode(), row, key)
      ensures outcome == Err(Locked) <==> Encrypted() && masterKey.None?
      ensures outcome.Ok? <==>
        !Encrypted() || (masterKey.Some? && crypto.encrypt(masterKey.value, nonce, crypto.toUtf8(key)).Some?)
      ensures outcome.Err? ==> outcome.error in {Locked, CryptoFailed}
    {
      outcome, row := Ok, PlaintextRow(key);
      if Encrypted() {
        if masterKey.None? {
          return Err(Locked), row;
        }
        var ciphertext := crypto.encrypt(masterKey.value, nonce, crypto.toUtf8(key));
        if ciphertext.None? {
          return Err(CryptoFailed), row;
        }
        SealedRowOpens(crypto, masterKey.value, nonce, key);
        row := EncryptedRow(ciphertext.value, nonce);
      }
    }

    /** The second half writes the row, whatever the mode is by now. */
    method WriteRow(providerId: string, row: SecretRow, ghost key: string)
      requires Valid()
      modifies this`rows, this`contents
      ensures rows == old(rows)[providerId := row] && contents == old(contents)[providerId := key]
      ensures Valid() <==> RowFits(crypto, Mode(), row, key)
    {
      hide Seals, Shows, Lawful, KeyedTo, OpenRow;
      rows := rows[providerId := row];
      contents := contents[providerId := key];
      if Encrypted() {
        SealedWith(crypto, sealingKey, old(rows), old(contents), providerId, row, key);
      } else {
        ShownWith(old(rows), old(contents), providerId, row, key);
      }
    }

    /** Both halves at once. */
    method Put(providerId: string, key: string, nonce: Bytes) returns (outcome: Outcome)
      requires Valid() && |nonce| == NONCE_LEN
      modifies this`rows, this`contents
      ensures Valid()
      ensures outcome.Ok? ==> contents == old(contents)[providerId := key]
      ensures outcome.Err? ==> unchanged(this)
      ensures outcome == Err(Locked) <==> Encrypted() && masterKey.None?
      ensures outcome.Ok? <==>
        !Encrypted() || (masterKey.Some? && crypto.encrypt(masterKey.value, nonce, crypto.toUtf8(key)).Some?)
      ensures outcome.Err? ==> outcome.error in {Locked, CryptoFailed}
    {
      var row;
      outcome, row := PreparePut(key, nonce);
      if outcome.Ok? {
        WriteRow(providerId, row, key);
      }
    }

    method Delete(providerId: string)
      requires Valid()
      modifies this`rows, this`contents
      ensures Valid() && contents == old(contents) - {providerId}
    {
      rows := rows - {providerId};
      contents := contents - {providerId};
    }

    /** A permitted read returns the stored value; the only refusals are a missing row and a locked session. */
    method Get(providerId: string) returns (outcome: KeyOutcome)
      requires Valid()
      ensures outcome ==
        if providerId !in contents then Refused(NotFound)
        else if Encrypted() && masterKey.None? then Refused(Locked)
        else Found(contents[providerId])
    {
      if providerId !in rows {
        return Refused(NotFound);
      }
      var row := rows[providerId];
      if row.plaintext.Some? {
        return Found(row.plaintext.value);
      }
      if row.ciphertext.None? || row.nonce.None? {
        return Refused(CorruptSecret);
      }
      if masterKey.None? {
        return Refused(Locked);
      }
      var pt := crypto.decrypt(masterKey.value, row.ciphertext.value, row.nonce.value);
      if pt.None? {
        return Refused(CryptoFailed);
      }
      var decoded := crypto.fromUtf8(pt.value);
      if decoded.None? {
        return Refused(CorruptSecret);
      }
      return Found(decoded.value);
    }

    // ----- Runs -----

    method Serve(r: Request) returns (outcome: Outcome)
      requires Valid() && WellFormed(r)
      modifies this
      ensures Valid()
      ensures contents == if outcome.Ok? then Effect(old(contents), r) else old(contents)
    {
      outcome := Ok;
      match r
      case Enable(password, keys, randomness) => outcome := EnableEncryption(password, keys, randomness);
      case Disable(password) => outcome := DisableEncryption(password);
      case Unlock(password) => outcome := UnlockSession(password);
      case Lock => LockSession();
      case ResetPassword(password, newPassword, randomness) =>
        outcome := ChangePassword(password, newPassword, randomness);
      case Clear => ClearAll();
      case PutKey(pid, key, nonce) => outcome := Put(pid, key, nonce);
      case DeleteKey(pid) => Delete(pid);
    }

    /** Any requests served between the two halves of storing a key: the vault stays valid exactly when at the write the
        mode and the sealing key are those of the check. A row left in the other mode stops every later transition. */
    method PutAround(providerId: string, key: string, nonce: Bytes, between: seq<Request>) returns (outcome: Outcome)
      requires Valid() && |nonce| == NONCE_LEN && forall r | r in between :: WellFormed(r)
      modifies this
      ensures outcome.Err? ==> Valid()
      ensures outcome.Ok? ==> (Valid() <==> Mode() == old(Mode()))
      ensures outcome.Ok? && Mode().Some? != old(Mode()).Some? ==>
        forall target, t :: !TransitionAllowed(rows, Encrypted(), target, t)
    {
      hide KeyedTo, Lawful, Seals, Shows;
      var row;
      outcome, row := PreparePut(key, nonce);
      for i := 0 to |between|
        invariant Valid()
      {
        var _ := Serve(between[i]);
      }
      if outcome.Ok? {
        PreparedRowFitsIff(crypto, old(Mode()), Mode(), key, nonce);
        WriteRow(providerId, row, key);
        TransitionsIff(rows, Encrypted());
        assert old(Mode()).Some? ==> SealedShape(row);
        assert providerId in rows && rows[providerId] == row;
      }
    }

    /** Over every sequence of requests the invariant holds, and what can be read is what was last written. */
    method ServeAll(requests: seq<Request>) returns (outcomes: seq<Outcome>)
      requires Valid() && contents == map[] && forall r | r in requests :: WellFormed(r)
      modifies this
      ensures Valid() && |outcomes| == |requests|
      ensures forall pid ::
        LastWritten(requests, outcomes, pid) == if pid in contents then Some(contents[pid]) else None
    {
      outcomes := [];
      for i := 0 to |requests|
        invariant Valid() && |outcomes| == i
        invariant contents == EffectOfRun(map[], requests[..i], outcomes)
      {
        assert requests[..i + 1][..i] == requests[..i];
        var outcome := Serve(requests[i]);
        assert (outcomes + [outcome])[..i] == outcomes;
        outcomes := outcomes + [outcome];
      }
      assert requests[..|requests|] == requests;
      forall pid
        ensures LastWritten(requests, outcomes, pid) == if pid in contents then Some(contents[pid]) else None
      {
        RunHoldsLastWritten(requests, outcomes, pid);
      }
    }
  }
}
