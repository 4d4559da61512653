/**
 * http.Header: a multimap from canonical key to the ordered list of its
 * values, the merge copyHeaders performs and the deep copy cloneRequest takes.
 */
module Headers {
  import opened Text

  type Fields = map<string, seq<string>>

  /** The values stored under `key`; a missing key reads as none. */
  function Values(fields: Fields, key: string): seq<string> {
    if key in fields then fields[key] else []
  }

  /** Every key is stored the way Header.Add would store it: net/http
      canonicalises the keys of the headers it parses. */
  predicate AllCanonical(fields: Fields) {
    forall key :: key in fields ==> IsCanonical(key)
  }

  /** The first value stored under `key` exactly, or "". */
  function FirstValue(fields: Fields, key: string): string {
    var values := Values(fields, key);
    if values == [] then "" else values[0]
  }

  /** Header.Get: the first value under the canonical form of `key`, or ""
      when that form holds no value. */
  function GetField(fields: Fields, key: string): (r: string)
    ensures Values(fields, CanonicalKey(key)) == [] ==> r == ""
    ensures Values(fields, CanonicalKey(key)) != [] ==> r == Values(fields, CanonicalKey(key))[0]
  {
    FirstValue(fields, CanonicalKey(key))
  }

  /** Get finds the same value under a name as under its canonical form,
      so a stored key is reached by any spelling that canonicalises to it. */
  lemma GetFieldIgnoresCase(fields: Fields, key: string)
    ensures GetField(fields, CanonicalKey(key)) == GetField(fields, key)
  {
    CanonicalKeyIdempotent(key);
  }

  /** `dst` after every value of every key of `src` was appended to it:
      keys of `src` that hold values get them after their old ones, every
      other key is left as it was. */
  function Merged(dst: Fields, src: Fields): Fields {
    map key | key in dst.Keys + src.Keys && (key in dst || src[key] != []) :: Values(dst, key) + Values(src, key)
  }

  /** Merging an empty header changes nothing. */
  lemma MergedNothing(dst: Fields)
    ensures Merged(dst, map[]) == dst
  {
    var m := Merged(dst, map[]);
    forall k
      ensures k in m <==> k in dst
      ensures k in m ==> m[k] == dst[k]
    {
    }
  }

  /** What a merge does to each key: a source key with values gets them
      after the old ones, every other key keeps its entry (or its absence). */
  lemma MergedAt(dst: Fields, src: Fields, key: string)
    ensures Values(Merged(dst, src), key) == Values(dst, key) + Values(src, key)
    ensures key in Merged(dst, src) <==> key in dst || Values(src, key) != []
  {
  }

  /** `fields` after `values` were added under `key` one at a time. */
  function Appended(fields: Fields, key: string, values: seq<string>): Fields {
    if values == [] then fields else fields[key := Values(fields, key) + values]
  }

  /** Merging one more source key is appending its values to the merge so far. */
  lemma MergedInsert(dst: Fields, done: Fields, key: string, values: seq<string>)
    requires key !in done
    ensures Merged(dst, done[key := values]) == Appended(Merged(dst, done), key, values)
  {
    var after := Merged(dst, done[key := values]);
    var merged := Merged(dst, done);
    var expected := Appended(merged, key, values);
    assert Values(merged, key) == Values(dst, key);
    forall k
      ensures k in after <==> k in expected
      ensures k in after ==> after[k] == expected[k]
    {
      if k == key {
        if values != [] {
          assert after[k] == Values(dst, key) + values;
        }
      } else {
        assert Values(done[key := values], k) == Values(done, k);
        assert k in expected <==> k in merged;
      }
    }
  }

  /** Taking one key out of the pending set adds its entry to what is done. */
  lemma DoneOneMore(src: Fields, pending: set<string>, key: string)
    requires key in pending && pending <= src.Keys
    ensures (src - pending)[key := src[key]] == src - (pending - {key})
  {
    var a := (src - pending)[key := src[key]];
    var b := src - (pending - {key});
    forall k
      ensures k in a <==> k in b
      ensures k in a ==> a[k] == b[k]
    {
    }
  }

  class Header {
    var fields: Fields

    constructor (fields: Fields)
      ensures this.fields == fields
    {
      this.fields := fields;
    }

    /** Header.Add: appends `value` to the values of the canonical form of `key`. */
    method Add(key: string, value: string)
      modifies this
      ensures fields == old(fields)[CanonicalKey(key) := Values(old(fields), CanonicalKey(key)) + [value]]
    {
      var canonical := CanonicalKey(key);
      fields := fields[canonical := Values(fields, canonical) + [value]];
    }

    /** Header.Clone: an independent header holding the same keys and values. */
    method Clone() returns (copy: Header)
      ensures fresh(copy) && copy.fields == fields
    {
      copy := new Header(fields);
    }
  }

  /** The inner loop of copyHeaders: each value of one key, one Add at a time. */
  method AddValues(dst: Header, key: string, values: seq<string>)
    requires IsCanonical(key)
    modifies dst
    ensures dst.fields == Appended(old(dst.fields), key, values)
  {
    var j := 0;
    while j < |values|
      invariant 0 <= j <= |values|
      invariant dst.fields == Appended(old(dst.fields), key, values[..j])
    {
      ghost var current := Values(dst.fields, key);
      dst.Add(key, values[j]);
      assert values[..j + 1] == values[..j] + [values[j]];
      assert current == Values(old(dst.fields), key) + values[..j];
      assert current + [values[j]] == Values(old(dst.fields), key) + values[..j + 1];
      j := j + 1;
    }
    assert values[..j] == values;
  }

  /** copyHeaders: every value of every key of `src` is added to `dst`, one
      Add at a time, keys in whatever order the map yields them. */
  method CopyHeaders(dst: Header, src: Header)
    requires dst != src
    requires AllCanonical(src.fields)
    modifies dst
    ensures dst.fields == Merged(old(dst.fields), src.fields)
    ensures forall key :: Values(dst.fields, key) == Values(old(dst.fields), key) + Values(src.fields, key)
    ensures forall key :: key in dst.fields <==> key in old(dst.fields) || Values(src.fields, key) != []
    ensures src.fields == old(src.fields)
  {
    var pending := src.fields.Keys;
    assert src.fields - pending == map[];
    MergedNothing(dst.fields);
    while pending != {}
      invariant pending <= src.fields.Keys
      invariant dst.fields == Merged(old(dst.fields), src.fields - pending)
      decreases pending
    {
      var key :| key in pending;
      var values := src.fields[key];
      assert IsCanonical(key);
      AddValues(dst, key, values);
      MergedInsert(old(dst.fields), src.fields - pending, key, values);
      DoneOneMore(src.fields, pending, key);
      pending := pending - {key};
    }
    assert src.fields - pending == src.fields;
    forall key
      ensures Values(dst.fields, key) == Values(old(dst.fields), key) + Values(src.fields, key)
      ensures key in dst.fields <==> key in old(dst.fields) || Values(src.fields, key) != []
    {
      MergedAt(old(dst.fields), src.fields, key);
    }
  }
}
