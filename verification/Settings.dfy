/**
 The settings store: a cache in front of a file whose secret entries are
 encrypted (client/secureQSettings.cpp). Keys are leaf keys.
 */
module Settings {
  import opened Basics

  datatype Variant = Invalid | ByteArray(bytes: Bytes) | Boolean(flag: bool) | Other(id: int, truth: bool)

  /** Serialisation and AES, as far as the store knows them. */
  datatype Crypto = Crypto(
    serialize: Variant -> Bytes,
    deserialize: Bytes -> Variant,
    encrypt: Bytes -> Bytes,
    decrypt: Bytes -> Bytes)

  /** Decrypting and reading back undoes writing and encrypting. */
  ghost predicate Inverse(c: Crypto) {
    forall v :: c.deserialize(c.decrypt(c.encrypt(c.serialize(v)))) == v
  }

  /** "EncData", the mark of an encrypted byte array. */
  const MAGIC: Bytes := [69, 110, 99, 68, 97, 116, 97]

  const ENCRYPTED_KEYS: set<string> := {"Servers/serversList"}
  const MIGRATED_KEY := "Conf/encrypted"

  /** What does not change while the store is in use. */
  datatype Env = Env(crypto: Crypto, encryptionRequired: bool, keyAvailable: bool)

  predicate Secret(env: Env, key: string) { env.encryptionRequired && key in ENCRYPTED_KEYS }

  predicate Marked(v: Variant) { v.ByteArray? && MAGIC <= v.bytes }

  /** What setValue writes to the file. */
  function Encode(env: Env, key: string, v: Variant): Variant {
    if Secret(env, key) then ByteArray(MAGIC + env.crypto.encrypt(env.crypto.serialize(v))) else v
  }

  /** What value reads from the file; nothing encrypted can be read without the key. */
  function Decode(env: Env, stored: Variant): Variant {
    if !Marked(stored) then stored
    else if !env.keyAvailable then Invalid
    else env.crypto.deserialize(env.crypto.decrypt(stored.bytes[|MAGIC|..]))
  }

  /** setValue writes: it drops a secret value without the key. */
  predicate Writable(env: Env, key: string) { Secret(env, key) ==> env.keyAvailable }

  datatype Store = Store(settings: map<string, Variant>, cache: map<string, Variant>)

  function Value(env: Env, s: Store, key: string, defaultValue: Variant): (Store, Variant) {
    if key in s.cache then (s, s.cache[key])
    else if key !in s.settings then (s, defaultValue)
    else if Marked(s.settings[key]) && !env.keyAvailable then (s, Invalid)
    else
      var v := Decode(env, s.settings[key]);
      (s.(cache := s.cache[key := v]), v)
  }

  function SetValue(env: Env, s: Store, key: string, v: Variant): Store {
    if !Writable(env, key) then s
    else Store(s.settings[key := Encode(env, key, v)], s.cache[key := v])
  }

  function Remove(s: Store, key: string): Store { Store(s.settings - {key}, s.cache - {key}) }

  // ---------------------------------------------------------------- the plain map it stands for

  function Plain(env: Env, s: Store): map<string, Variant> {
    map key | key in s.settings :: Decode(env, s.settings[key])
  }

  /** Every cached value is what the file would give. */
  ghost predicate Coherent(env: Env, s: Store) {
    forall key :: key in s.cache ==> key in s.settings && s.cache[key] == Decode(env, s.settings[key])
  }

  /** A value that reads back as itself: encrypted, or not mistaken for something encrypted. */
  predicate Storable(env: Env, key: string, v: Variant) { Secret(env, key) || !Marked(v) }

  lemma EncodeDecode(env: Env, key: string, v: Variant)
    requires Inverse(env.crypto) && Storable(env, key, v) && Writable(env, key)
    ensures Decode(env, Encode(env, key, v)) == v
  {
    var sealed := env.crypto.encrypt(env.crypto.serialize(v));
    assert (MAGIC + sealed)[|MAGIC|..] == sealed;
  }

  datatype Op =
    | Read(key: string, defaultValue: Variant)
    | Write(key: string, v: Variant)
    | Delete(key: string)
    | Clear
    | DropCache

  function Apply(env: Env, s: Store, op: Op): (Store, seq<Variant>) {
    match op
    case Read(key, d) => var (t, v) := Value(env, s, key, d); (t, [v])
    case Write(key, v) => (SetValue(env, s, key, v), [])
    case Delete(key) => (Remove(s, key), [])
    case Clear => (Store(map[], map[]), [])
    case DropCache => (s.(cache := map[]), [])
  }

  /** The same on a plain map, in which a secret cannot be changed without the key. */
  function PlainApply(env: Env, m: map<string, Variant>, op: Op): (map<string, Variant>, seq<Variant>) {
    match op
    case Read(key, d) => (m, [if key in m then m[key] else d])
    case Write(key, v) => (if Writable(env, key) then m[key := v] else m, [])
    case Delete(key) => (m - {key}, [])
    case Clear => (map[], [])
    case DropCache => (m, [])
  }

  function Answers(env: Env, s: Store, ops: seq<Op>): seq<Variant>
    decreases |ops|
  {
    if ops == [] then [] else
    var (t, out) := Apply(env, s, ops[0]);
    out + Answers(env, t, ops[1..])
  }

  function PlainAnswers(env: Env, m: map<string, Variant>, ops: seq<Op>): seq<Variant>
    decreases |ops|
  {
    if ops == [] then [] else
    var (n, out) := PlainApply(env, m, ops[0]);
    out + PlainAnswers(env, n, ops[1..])
  }

  predicate OnlyStorable(env: Env, ops: seq<Op>) {
    forall i :: 0 <= i < |ops| && ops[i].Write? ==> Storable(env, ops[i].key, ops[i].v)
  }

  lemma ValueIsDecoded(env: Env, s: Store, key: string, d: Variant)
    requires Coherent(env, s)
    ensures Value(env, s, key, d).1 == if key in s.settings then Decode(env, s.settings[key]) else d
  {
  }

  /** One operation on a coherent store is the same operation on the plain map. */
  lemma ApplyRefines(env: Env, s: Store, op: Op)
    requires Inverse(env.crypto) && Coherent(env, s)
    requires op.Write? ==> Storable(env, op.key, op.v)
    ensures var (t, out) := Apply(env, s, op);
            Coherent(env, t) && (Plain(env, t), out) == PlainApply(env, Plain(env, s), op)
  {
    hide Inverse, Decode, Encode;
    match op
    case Write(key, v) =>
      if Writable(env, key) {
        EncodeDecode(env, key, v);
        assert Plain(env, SetValue(env, s, key, v)) == Plain(env, s)[key := v];
      }
    case Read(key, d) =>
      ValueIsDecoded(env, s, key, d);
      assert Plain(env, Value(env, s, key, d).0) == Plain(env, s);
    case Delete(key) => assert Plain(env, Remove(s, key)) == Plain(env, s) - {key};
    case _ =>
  }

  /**
   The cache is invisible: every run of reads, writes, removals and clears, with
   the cache dropped at any points, answers exactly as a plain map does, with
   the encryption key at hand or not.
   */
  lemma {:induction false} CacheIsInvisible(env: Env, s: Store, ops: seq<Op>)
    requires Inverse(env.crypto) && Coherent(env, s) && OnlyStorable(env, ops)
    ensures Answers(env, s, ops) == PlainAnswers(env, Plain(env, s), ops)
    decreases |ops|
  {
    hide Apply, PlainApply, Inverse, Coherent, Plain;
    if ops != [] {
      ApplyRefines(env, s, ops[0]);
      assert OnlyStorable(env, ops[1..]);
      CacheIsInvisible(env, Apply(env, s, ops[0]).0, ops[1..]);
    }
  }

  /** No cipher text decrypts to a value that holds that very text after the mark. */
  ghost predicate NoFixedPoint(c: Crypto) {
    forall text: Bytes :: c.deserialize(c.decrypt(text)) != ByteArray(MAGIC + text)
  }

  /**
   A write that is not dropped is read back the same from the cache and from the
   file if and only if the value is storable: a plain byte array that starts with the mark is not.
   */
  lemma WriteReadsBackExactlyIfStorable(env: Env, s: Store, key: string, v: Variant, d: Variant)
    requires Inverse(env.crypto) && NoFixedPoint(env.crypto) && Writable(env, key)
    ensures Answers(env, s, [Write(key, v), Read(key, d)]) == [v]
    ensures Answers(env, s, [Write(key, v), DropCache, Read(key, d)]) == [v] <==> Storable(env, key, v)
  {
    var t := SetValue(env, s, key, v);
    var read := [Read(key, d)];
    AnswersStep(env, s, Write(key, v), read);
    AnswersStep(env, t, Read(key, d), []);
    AnswersStep(env, s, Write(key, v), [DropCache] + read);
    AnswersStep(env, t, DropCache, read);
    AnswersStep(env, t.(cache := map[]), Read(key, d), []);
    assert [Write(key, v), DropCache, Read(key, d)] == [Write(key, v)] + ([DropCache] + read);
    assert [Read(key, d)] + [] == read;
    if Storable(env, key, v) {
      EncodeDecode(env, key, v);
    } else {
      var text := v.bytes[|MAGIC|..];
      assert v == ByteArray(MAGIC + text);
      assert v.bytes[|MAGIC|..] == text && env.crypto.deserialize(env.crypto.decrypt(text)) != v;
    }
    var w := Decode(env, t.settings[key]);
    var answers := Answers(env, s, [Write(key, v), DropCache, Read(key, d)]);
    assert answers == [w];
    assert answers == [v] <==> w == v by { assert answers[0] == w && [v][0] == v; }
  }

  lemma AnswersStep(env: Env, s: Store, op: Op, rest: seq<Op>)
    ensures Answers(env, s, [op] + rest) == Apply(env, s, op).1 + Answers(env, Apply(env, s, op).0, rest)
  {
    assert ([op] + rest)[1..] == rest;
  }

  // ---------------------------------------------------------------- secrets in the file

  /** The file the store leaves behind after some operations. */
  function FileAfter(env: Env, s: Store, ops: seq<Op>, n: nat): Store
    requires n <= |ops|
  {
    if n == 0 then s else Apply(env, FileAfter(env, s, ops, n-1), ops[n-1]).0
  }

  /** The file has no server list, or one that starts with the letters EncData. */
  predicate ServersSealed(settings: map<string, Variant>) {
    var key := "Servers/serversList";
    key in settings ==> settings[key].ByteArray? && [69, 110, 99, 68, 97, 116, 97] <= settings[key].bytes
  }

  /** Where encryption is required, no operation puts the server list into the file in the clear. */
  lemma {:induction false} ServerListStaysSealed(env: Env, s: Store, ops: seq<Op>, n: nat)
    requires n <= |ops| && env.encryptionRequired && ServersSealed(s.settings)
    ensures ServersSealed(FileAfter(env, s, ops, n).settings)
  {
    if n > 0 {
      ServerListStaysSealed(env, s, ops, n-1);
      assert MAGIC <= MAGIC + [];
    }
  }

  /**
   What a write leaves in the file: for the server list the mark and the cipher
   text if there is a key, and the old entry if there is none; for every other
   entry, and where no encryption is required, the value itself.
   */
  lemma WrittenExactly(env: Env, s: Store, key: string, v: Variant)
    ensures var file := SetValue(env, s, key, v).settings;
            file == if !env.encryptionRequired || key != "Servers/serversList" then s.settings[key := v]
                    else if !env.keyAvailable then s.settings
                    else s.settings[key := ByteArray([69, 110, 99, 68, 97, 116, 97]
                                                     + env.crypto.encrypt(env.crypto.serialize(v)))]
  {
  }

  // ---------------------------------------------------------------- migration

  /** QVariant::toBool; what other types convert to is part of the value here. */
  predicate ToBool(v: Variant) { v == Boolean(true) || (v.Other? && v.truth) }

  predicate NeedsMigration(env: Env, settings: map<string, Variant>) {
    env.encryptionRequired && !(MIGRATED_KEY in settings && ToBool(settings[MIGRATED_KEY]))
  }

  /** A file is migrated exactly if encryption is required and its flag is missing or does not convert to true. */
  lemma MigrationIsDueExactly(env: Env, settings: map<string, Variant>)
    ensures NeedsMigration(env, settings) <==>
            env.encryptionRequired &&
            ("Conf/encrypted" in settings ==>
               match settings["Conf/encrypted"]
               case Boolean(flag) => !flag
               case Other(_, truth) => !truth
               case _ => true)
  {
  }

  /** The first n keys of the file re-written if they are to be secret. */
  function Migrate(env: Env, s: Store, keys: seq<string>, n: nat): Store
    requires n <= |keys|
  {
    if n == 0 then s else
    var before := Migrate(env, s, keys, n-1);
    var key := keys[n-1];
    if key !in ENCRYPTED_KEYS then before else
    var (read, v) := Value(env, before, key, Invalid);
    SetValue(env, read, key, v)
  }

  function Open(env: Env, settings: map<string, Variant>, keys: seq<string>): Store {
    var s := Store(settings, map[]);
    if !NeedsMigration(env, settings) then s else
    var migrated := Migrate(env, s, keys, |keys|);
    migrated.(settings := migrated.settings[MIGRATED_KEY := Boolean(true)])
  }

  lemma {:induction false} MigrateKeepsValues(env: Env, s: Store, keys: seq<string>, n: nat)
    requires Inverse(env.crypto) && env.encryptionRequired && Coherent(env, s)
    requires n <= |keys| && forall i :: 0 <= i < |keys| ==> keys[i] in s.settings
    ensures var t := Migrate(env, s, keys, n);
            && Coherent(env, t) && Plain(env, t) == Plain(env, s)
            && t.cache.Keys <= s.cache.Keys + ENCRYPTED_KEYS
            && (env.keyAvailable ==>
                  forall i :: 0 <= i < n && keys[i] in ENCRYPTED_KEYS
                            ==> keys[i] in t.settings && Marked(t.settings[keys[i]]))
            && (!env.keyAvailable ==> t.settings == s.settings)
  {
    if n > 0 {
      MigrateKeepsValues(env, s, keys, n-1);
      var before, key := Migrate(env, s, keys, n-1), keys[n-1];
      if key in ENCRYPTED_KEYS {
        assert key in Plain(env, s) && key in Plain(env, before);
        MigrateOne(env, before, key);
      }
    }
  }

  lemma MigrateOne(env: Env, s: Store, key: string)
    requires Inverse(env.crypto) && Secret(env, key) && Coherent(env, s) && key in s.settings
    ensures var (read, v) := Value(env, s, key, Invalid);
            var t := SetValue(env, read, key, v);
            && Coherent(env, t) && Plain(env, t) == Plain(env, s) && t.cache.Keys <= s.cache.Keys + {key}
            && (env.keyAvailable ==> t.settings.Keys == s.settings.Keys
                                     && t.settings == s.settings[key := t.settings[key]])
            && (env.keyAvailable ==> Marked(t.settings[key]))
            && (!env.keyAvailable ==> t.settings == s.settings)
  {
    var (read, v) := Value(env, s, key, Invalid);
    ApplyRefines(env, s, Read(key, Invalid));
    ApplyRefines(env, read, Write(key, v));
  }

  /** Migration changes no value: whatever happens to the file, every key but the flag reads as it did before. */
  lemma MigrationChangesNoValue(env: Env, settings: map<string, Variant>, keys: seq<string>)
    requires Inverse(env.crypto)
    requires forall key :: key in settings <==> key in keys
    ensures var s := Open(env, settings, keys);
            var before := Plain(env, Store(settings, map[]));
            && Coherent(env, s)
            && Plain(env, s) == if NeedsMigration(env, settings) then before[MIGRATED_KEY := Boolean(true)] else before
  {
    if NeedsMigration(env, settings) {
      var start := Store(settings, map[]);
      MigrateKeepsValues(env, start, keys, |keys|);
      var migrated := Migrate(env, start, keys, |keys|);
      assert MIGRATED_KEY !in ENCRYPTED_KEYS;
      assert Plain(env, Open(env, settings, keys)) == Plain(env, migrated)[MIGRATED_KEY := Boolean(true)];
    }
  }

  /**
   Migration encrypts the secrets if and only if the key was at hand or there
   was nothing left to encrypt. The flag is set either way, so a file that was
   opened without the key is never migrated again: what it holds in the clear
   stays in the clear whenever it is opened.
   */
  lemma MigrationEncryptsExactlyWithKey(env: Env, settings: map<string, Variant>, keys: seq<string>)
    requires Inverse(env.crypto) && NeedsMigration(env, settings)
    requires forall key :: key in settings <==> key in keys
    ensures var file := Open(env, settings, keys).settings;
            && (ServersSealed(file) <==> env.keyAvailable || ServersSealed(settings))
            && "Conf/encrypted" in file && file["Conf/encrypted"] == Boolean(true)
            && forall later, order :: Open(later, file, order).settings == file
  {
    var start := Store(settings, map[]);
    MigrateKeepsValues(env, start, keys, |keys|);
    var migrated := Migrate(env, start, keys, |keys|);
    var file := Open(env, settings, keys).settings;
    assert MIGRATED_KEY !in ENCRYPTED_KEYS && file == migrated.settings[MIGRATED_KEY := Boolean(true)];
    if env.keyAvailable {
      assert Plain(env, start).Keys == settings.Keys && Plain(env, migrated).Keys == migrated.settings.Keys;
      var key := "Servers/serversList";
      if key in file {
        assert key in keys;
        var i :| 0 <= i < |keys| && keys[i] == key;
        assert Marked(file[key]);
      }
    }
    forall later, order ensures Open(later, file, order).settings == file { assert !NeedsMigration(later, file); }
  }

  // ---------------------------------------------------------------- the object

  class SecureQSettings {
    const env: Env
    var settings: map<string, Variant>
    var cache: map<string, Variant>

    ghost function State(): Store
      reads this
    {
      Store(settings, cache)
    }

    constructor (env: Env, file: map<string, Variant>, allKeys: seq<string>)
      ensures this.env == env && State() == Open(env, file, allKeys)
    {
      this.env := env;
      settings, cache := file, map[];
      new;
      var encrypted := MIGRATED_KEY in settings && ToBool(settings[MIGRATED_KEY]);
      if env.encryptionRequired && !encrypted {
        for i := 0 to |allKeys|
          invariant State() == Migrate(env, Store(file, map[]), allKeys, i)
        {
          if allKeys[i] in ENCRYPTED_KEYS {
            var val := GetValue(allKeys[i], Invalid);
            PutValue(allKeys[i], val);
          }
        }
        settings := settings[MIGRATED_KEY := Boolean(true)];
      }
    }

    method GetValue(key: string, defaultValue: Variant) returns (r: Variant)
      modifies this
      ensures (State(), r) == Value(env, old(State()), key, defaultValue)
    {
      if key in cache {
        return cache[key];
      }
      if key !in settings {
        return defaultValue;
      }
      r := settings[key];
      if r != Invalid {
        if r.ByteArray? && MAGIC <= r.bytes {
          if !env.keyAvailable {
            return Invalid;
          }
          r := env.crypto.deserialize(env.crypto.decrypt(r.bytes[|MAGIC|..]));
        }
      }
      cache := cache[key := r];
    }

    method PutValue(key: string, v: Variant)
      modifies this
      ensures State() == SetValue(env, old(State()), key, v)
    {
      if env.encryptionRequired && key in ENCRYPTED_KEYS {
        if !env.keyAvailable {
          return;
        }
        settings := settings[key := ByteArray(MAGIC + env.crypto.encrypt(env.crypto.serialize(v)))];
      } else {
        settings := settings[key := v];
      }
      cache := cache[key := v];
    }

    method RemoveKey(key: string)
      modifies this
      ensures State() == Remove(old(State()), key)
    {
      settings := settings - {key};
      cache := cache - {key};
    }

    method ClearSettings()
      modifies this
      ensures State() == Store(map[], map[])
    {
      settings := map[];
      cache := map[];
    }
  }
}
