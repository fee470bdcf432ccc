/** Localizable texts and the language configuration of a bot (frontend/src/types.ts,
    frontend/src/studio/stores.ts), with the semantics of JavaScript objects that map
    language codes to texts: keys are unique and keep their insertion order. */
module Localization {
  import opened Base

  /** An ordered string-keyed object, as JSON and JavaScript objects are. */
  type Entries = seq<(string, string)>

  /** A text given either as one string or as a map from language code to translation. */
  datatype LocalizableText = Plain(text: string) | Localized(entries: Entries)

  /** The languages a bot offers, when it has a language-selection block. */
  datatype LanguageConfig = LanguageConfig(supportedLanguageCodes: seq<string>, defaultLanguageCode: string)

  function Keys(e: Entries): (r: seq<string>)
    ensures |r| == |e| && forall i :: 0 <= i < |e| ==> r[i] == e[i].0
  {
    if e == [] then [] else [e[0].0] + Keys(e[1..])
  }

  /** `obj[key]`: the value stored under `key`, if any. */
  function Lookup(e: Entries, key: string): Option<string>
  {
    if e == [] then None else if e[0].0 == key then Some(e[0].1) else Lookup(e[1..], key)
  }

  /** `obj[key] = value`: overwrites in place, or appends a new key at the end. */
  function Put(e: Entries, key: string, value: string): Entries
  {
    if e == [] then [(key, value)]
    else if e[0].0 == key then [(key, value)] + e[1..]
    else [e[0]] + Put(e[1..], key, value)
  }

  /** `{...a, ...b}`: the entries of `b` assigned one by one onto a copy of `a`.
      `Object.fromEntries(pairs)` is `Spread([], pairs)`. */
  function Spread(a: Entries, b: Entries): Entries
    decreases |b|
  {
    if b == [] then a else Spread(Put(a, b[0].0, b[0].1), b[1..])
  }

  /** The value the LAST entry with `key` carries (what an assignment sequence leaves). */
  function LastLookup(b: Entries, key: string): Option<string>
  {
    if b == [] then None
    else
      var later := LastLookup(b[1..], key);
      if later.Some? then later else if b[0].0 == key then Some(b[0].1) else None
  }

  lemma {:induction false} LookupPut(e: Entries, key: string, value: string, k: string)
    ensures Lookup(Put(e, key, value), k) == if k == key then Some(value) else Lookup(e, k)
  {
    if e != [] && e[0].0 != key { LookupPut(e[1..], key, value, k); }
  }

  lemma {:induction false} KeysPut(e: Entries, key: string, value: string)
    ensures key in Keys(Put(e, key, value))
    ensures forall k :: k in Keys(Put(e, key, value)) <==> k == key || k in Keys(e)
  {
    if e != [] && e[0].0 != key {
      KeysPut(e[1..], key, value);
      assert Keys(e) == [e[0].0] + Keys(e[1..]);
      assert Keys(Put(e, key, value)) == [e[0].0] + Keys(Put(e[1..], key, value));
    } else if e != [] {
      assert Keys(e) == [e[0].0] + Keys(e[1..]);
      assert Keys(Put(e, key, value)) == [key] + Keys(e[1..]);
    } else {
      assert Keys(Put(e, key, value)) == [key];
    }
  }

  /** Spreading `b` onto `a`: a key of `b` takes `b`'s (last) value, any other key keeps `a`'s. */
  lemma {:induction false} LookupSpread(a: Entries, b: Entries, k: string)
    ensures Lookup(Spread(a, b), k) == if LastLookup(b, k).Some? then LastLookup(b, k) else Lookup(a, k)
    decreases |b|
  {
    if b != [] {
      LookupSpread(Put(a, b[0].0, b[0].1), b[1..], k);
      LookupPut(a, b[0].0, b[0].1, k);
    }
  }

  lemma {:induction false} KeysSpread(a: Entries, b: Entries, k: string)
    ensures k in Keys(Spread(a, b)) <==> k in Keys(a) || k in Keys(b)
    decreases |b|
  {
    if b != [] {
      KeysSpread(Put(a, b[0].0, b[0].1), b[1..], k);
      KeysPut(a, b[0].0, b[0].1);
      assert Keys(b) == [b[0].0] + Keys(b[1..]);
    }
  }

  /** Entries built from a list of keys with a value that depends on the key only
      (`Object.fromEntries(keys.map(k => [k, f(k)]))`). */
  function EntriesFor(keys: seq<string>, f: string -> string): (r: Entries)
    ensures Keys(r) == keys
  {
    var r := Map(keys, (k: string) => (k, f(k)));
    assert Keys(r) == keys;
    r
  }

  lemma {:induction false} LastLookupEntriesFor(keys: seq<string>, f: string -> string, k: string)
    ensures LastLookup(EntriesFor(keys, f), k) == if k in keys then Some(f(k)) else None
  {
    if keys != [] {
      LastLookupEntriesFor(keys[1..], f, k);
      assert EntriesFor(keys, f)[1..] == EntriesFor(keys[1..], f);
      assert keys == [keys[0]] + keys[1..];
    }
  }

  /** `Object.fromEntries(keys.map(k => [k, f(k)]))` has exactly the keys given, each
      with its value. */
  lemma FromEntriesFor(keys: seq<string>, f: string -> string, k: string)
    ensures Lookup(Spread([], EntriesFor(keys, f)), k) == if k in keys then Some(f(k)) else None
    ensures k in Keys(Spread([], EntriesFor(keys, f))) <==> k in keys
  {
    LookupSpread([], EntriesFor(keys, f), k);
    LastLookupEntriesFor(keys, f, k);
    KeysSpread([], EntriesFor(keys, f), k);
  }

  /** JavaScript truthiness of `obj[key]`: present and not the empty string. */
  predicate HasText(e: Entries, key: string)
  {
    Lookup(e, key).Some? && Lookup(e, key).value != ""
  }

  lemma {:induction false} LastLookupAbsent(e: Entries, k: string)
    requires forall j :: 0 <= j < |e| ==> e[j].0 != k
    ensures LastLookup(e, k).None? && Lookup(e, k).None?
  {
    if e != [] { LastLookupAbsent(e[1..], k); }
  }

  /** In an object with unique keys the first and the last entry for a key coincide. */
  lemma {:induction false} LastLookupDistinct(e: Entries, k: string)
    requires Distinct(Keys(e))
    ensures LastLookup(e, k) == Lookup(e, k)
  {
    if e != [] {
      assert Keys(e[1..]) == Keys(e)[1..];
      LastLookupDistinct(e[1..], k);
      if e[0].0 == k {
        forall j | 0 <= j < |e[1..]| ensures e[1..][j].0 != k {
          assert Keys(e)[0] != Keys(e)[j + 1];
        }
        LastLookupAbsent(e[1..], k);
      }
    }
  }

  lemma {:induction false} PutDistinct(e: Entries, key: string, value: string)
    requires Distinct(Keys(e))
    ensures Distinct(Keys(Put(e, key, value)))
  {
    if e != [] {
      var ks := Keys(e);
      assert Keys(e[1..]) == ks[1..];
      if e[0].0 == key {
        assert Keys(Put(e, key, value)) == ks;
      } else {
        PutDistinct(e[1..], key, value);
        KeysPut(e[1..], key, value);
        var rest := Keys(Put(e[1..], key, value));
        assert ks[0] !in ks[1..];
        assert Keys(Put(e, key, value)) == [ks[0]] + rest;
      }
    }
  }

  lemma {:induction false} SpreadDistinct(a: Entries, b: Entries)
    requires Distinct(Keys(a))
    ensures Distinct(Keys(Spread(a, b)))
    decreases |b|
  {
    if b != [] {
      PutDistinct(a, b[0].0, b[0].1);
      SpreadDistinct(Put(a, b[0].0, b[0].1), b[1..]);
    }
  }
}
