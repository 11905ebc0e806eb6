/**
 * Query parameters of a module URL, as the plugin uses them through its
 * helper library: a URL is its path plus an ordered list of key/value pairs.
 * `Get` answers the first value of a key, `Remove` deletes every pair of a key,
 * and `Append` replaces a key: it deletes its pairs and adds one at the end.
 */
module SearchParams {
  import opened Wrappers

  datatype Param = Param(key: string, value: string)

  datatype Url = Url(path: string, params: seq<Param>)

  /** No pair of `ps` has key `key`. */
  predicate Absent(ps: seq<Param>, key: string) {
    forall i | 0 <= i < |ps| :: ps[i].key != key
  }

  /** The value of the first pair of `ps` whose key is `key`. */
  function Lookup(ps: seq<Param>, key: string): (r: Option<string>)
    ensures r.None? <==> Absent(ps, key)
    ensures r.Some? ==> exists i | 0 <= i < |ps| ::
      ps[i] == Param(key, r.value) && Absent(ps[..i], key)
  {
    if ps == [] then None
    else if ps[0].key == key then
      assert Absent(ps[..0], key);
      Some(ps[0].value)
    else
      var r := Lookup(ps[1..], key);
      if r.Some? then
        var i :| 0 <= i < |ps[1..]| && ps[1..][i] == Param(key, r.value) && Absent(ps[1..][..i], key);
        assert ps[..i + 1] == [ps[0]] + ps[1..][..i];
        r
      else
        r
  }

  /** getSearchParam. */
  function Get(u: Url, key: string): Option<string> {
    Lookup(u.params, key)
  }

  /** `ps` without its pairs of key `key`, the others kept in order. */
  function Without(ps: seq<Param>, key: string): (r: seq<Param>)
    ensures Absent(r, key)
    ensures |r| <= |ps|
    ensures forall p | p in r :: p in ps
    ensures forall p | p in ps && p.key != key :: p in r
  {
    if ps == [] then []
    else if ps[0].key == key then Without(ps[1..], key)
    else [ps[0]] + Without(ps[1..], key)
  }

  /** removeSearchParam. */
  function Remove(u: Url, key: string): Url {
    Url(u.path, Without(u.params, key))
  }

  /** appendSearchParam: the key's old pairs are dropped and the new one goes last. */
  function Append(u: Url, key: string, value: string): Url {
    Url(u.path, Without(u.params, key) + [Param(key, value)])
  }

  /** A query string `k1=v1&k2=v2…` (no percent-encoding). */
  function Query(ps: seq<Param>): string {
    if ps == [] then ""
    else if |ps| == 1 then ps[0].key + "=" + ps[0].value
    else ps[0].key + "=" + ps[0].value + "&" + Query(ps[1..])
  }

  /** The text of a URL: the path alone when there are no parameters. */
  function Serialize(u: Url): string {
    if u.params == [] then u.path else u.path + "?" + Query(u.params)
  }

  /** Looking a key up in a concatenation searches the left part first. */
  lemma {:induction false} LookupConcat(a: seq<Param>, b: seq<Param>, key: string)
    ensures Lookup(a + b, key) == if Lookup(a, key).Some? then Lookup(a, key) else Lookup(b, key)
  {
    if a != [] {
      assert (a + b)[1..] == a[1..] + b;
      LookupConcat(a[1..], b, key);
    } else {
      assert a + b == b;
    }
  }

  /** Removing one key leaves the first value of every other key as it was. */
  lemma {:induction false} LookupWithout(ps: seq<Param>, key: string, other: string)
    requires other != key
    ensures Lookup(Without(ps, key), other) == Lookup(ps, other)
  {
    if ps != [] {
      LookupWithout(ps[1..], key, other);
      if ps[0].key != key {
        LookupConcat([ps[0]], Without(ps[1..], key), other);
      }
    }
  }

  /** Removing a key that is absent changes nothing. */
  lemma {:induction false} WithoutAbsent(ps: seq<Param>, key: string)
    requires Absent(ps, key)
    ensures Without(ps, key) == ps
  {
    if ps != [] {
      WithoutAbsent(ps[1..], key);
      assert [ps[0]] + ps[1..] == ps;
    }
  }

  /** Removing distributes over concatenation, so the order of the rest is kept. */
  lemma {:induction false} WithoutConcat(a: seq<Param>, b: seq<Param>, key: string)
    ensures Without(a + b, key) == Without(a, key) + Without(b, key)
  {
    if a == [] {
      assert a + b == b;
    } else {
      assert (a + b)[0] == a[0] && (a + b)[1..] == a[1..] + b;
      WithoutConcat(a[1..], b, key);
    }
  }

  /** Removing two keys gives the same list in either order. */
  lemma {:induction false} WithoutCommutes(ps: seq<Param>, k1: string, k2: string)
    ensures Without(Without(ps, k1), k2) == Without(Without(ps, k2), k1)
  {
    if ps != [] {
      WithoutCommutes(ps[1..], k1, k2);
      var p := ps[0];
      if p.key != k1 {
        WithoutConcat([p], Without(ps[1..], k1), k2);
      }
      if p.key != k2 {
        WithoutConcat([p], Without(ps[1..], k2), k1);
      }
    }
  }

  /** Get after Remove: the key is gone, every other key answers as before, the path is kept. */
  lemma RemoveSpec(u: Url, key: string)
    ensures Get(Remove(u, key), key) == None
    ensures Remove(u, key).path == u.path
    ensures forall k | k != key :: Get(Remove(u, key), k) == Get(u, k)
    ensures Absent(u.params, key) ==> Remove(u, key) == u
    ensures Remove(Remove(u, key), key) == Remove(u, key)
  {
    forall k | k != key ensures Get(Remove(u, key), k) == Get(u, k) {
      LookupWithout(u.params, key, k);
    }
    if Absent(u.params, key) {
      WithoutAbsent(u.params, key);
    }
    WithoutAbsent(Without(u.params, key), key);
  }

  /**
   * Get after Append returns the value just set, even when the key was there
   * before; every other key answers as before and the path is kept.
   */
  lemma AppendSpec(u: Url, key: string, value: string)
    ensures Get(Append(u, key, value), key) == Some(value)
    ensures Append(u, key, value).path == u.path
    ensures forall k | k != key :: Get(Append(u, key, value), k) == Get(u, k)
  {
    var w := Without(u.params, key);
    LookupConcat(w, [Param(key, value)], key);
    forall k | k != key ensures Get(Append(u, key, value), k) == Get(u, k) {
      LookupConcat(w, [Param(key, value)], k);
      LookupWithout(u.params, key, k);
    }
  }

  /** Removing what was appended gives the URL with that key removed (U itself when it had none). */
  lemma RemoveAfterAppend(u: Url, key: string, value: string)
    ensures Remove(Append(u, key, value), key) == Remove(u, key)
  {
    var w := Without(u.params, key);
    WithoutConcat(w, [Param(key, value)], key);
    WithoutAbsent(w, key);
    assert Without([Param(key, value)], key) == [];
  }

  /** Appending the same key twice keeps only the second value, in a single pair. */
  lemma AppendTwice(u: Url, key: string, v1: string, v2: string)
    ensures Append(Append(u, key, v1), key, v2) == Append(u, key, v2)
  {
    RemoveAfterAppend(u, key, v1);
  }

  /** Tags with different keys may be removed in either order. */
  lemma RemoveCommutes(u: Url, k1: string, k2: string)
    ensures Remove(Remove(u, k1), k2) == Remove(Remove(u, k2), k1)
  {
    WithoutCommutes(u.params, k1, k2);
  }
}
