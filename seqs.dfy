/**
 * Lookup and removal by id in a list, as the system does with
 * FirstOrDefault(x => x.Id == id) followed by List.Remove of that element.
 * The id of an element is given by a key function.
 */
module Seqs {
  import opened Wrappers

  /** The position of the first element whose key is `id`, if any. */
  function FirstIndexWithId<T>(s: seq<T>, key: T -> string, id: string): (r: Option<nat>)
    ensures r.Some? ==> r.value < |s| && key(s[r.value]) == id
                        && forall j :: 0 <= j < r.value ==> key(s[j]) != id
    ensures r.None? ==> forall j :: 0 <= j < |s| ==> key(s[j]) != id
    decreases |s|
  {
    if s == [] then None
    else if key(s[0]) == id then Some(0)
    else match FirstIndexWithId(s[1..], key, id)
      case None => None
      case Some(i) => Some(i + 1)
  }

  /** The first element whose key is `id`, if any. */
  function FirstWithId<T>(s: seq<T>, key: T -> string, id: string): Option<T>
  {
    match FirstIndexWithId(s, key, id)
    case None => None
    case Some(i) => Some(s[i])
  }

  /** FirstOrDefault by id: nothing exactly when no element has the id, else the earliest that has it. */
  lemma FirstWithIdSpec<T>(s: seq<T>, key: T -> string, id: string)
    ensures var r := FirstWithId(s, key, id);
            && (r.None? <==> forall j :: 0 <= j < |s| ==> key(s[j]) != id)
            && (r.Some? ==> exists i :: 0 <= i < |s| && s[i] == r.value && key(s[i]) == id
                                        && forall j :: 0 <= j < i ==> key(s[j]) != id)
  {
  }

  /** The list without its first element whose key is `id`; unchanged when there is none. */
  function RemoveFirstWithId<T>(s: seq<T>, key: T -> string, id: string): (r: seq<T>)
    ensures match FirstIndexWithId(s, key, id)
            case None => r == s
            case Some(i) => r == s[..i] + s[i + 1..]
    decreases |s|
  {
    if s == [] then []
    else if key(s[0]) == id then s[1..]
    else [s[0]] + RemoveFirstWithId(s[1..], key, id)
  }

  /** Removal by id takes out the matched element and nothing else, as a multiset. */
  lemma RemoveFirstWithIdMultiset<T>(s: seq<T>, key: T -> string, id: string)
    ensures match FirstIndexWithId(s, key, id)
            case None => multiset(RemoveFirstWithId(s, key, id)) == multiset(s)
            case Some(i) => multiset(RemoveFirstWithId(s, key, id)) == multiset(s) - multiset{s[i]}
                            && s[i] in multiset(s)
  {
    match FirstIndexWithId(s, key, id)
    case None =>
    case Some(i) =>
      assert s == s[..i] + [s[i]] + s[i + 1..];
  }

  /** No two elements share a key. */
  predicate UniqueKeys<T>(s: seq<T>, key: T -> string)
  {
    forall i, j :: 0 <= i < j < |s| ==> key(s[i]) != key(s[j])
  }

  /** Removing by id from a list with unique keys leaves unique keys and no element with that id. */
  lemma RemoveKeepsUnique<T>(s: seq<T>, key: T -> string, id: string)
    requires UniqueKeys(s, key)
    ensures var r := RemoveFirstWithId(s, key, id);
            UniqueKeys(r, key) && forall e :: e in r ==> key(e) != id
  {
    match FirstIndexWithId(s, key, id)
    case None =>
      forall e | e in s ensures key(e) != id {
        var k :| 0 <= k < |s| && s[k] == e;
      }
    case Some(i) =>
      RemoveAtKeepsUnique(s, key, i);
  }

  lemma RemoveAtKeepsUnique<T>(s: seq<T>, key: T -> string, i: nat)
    requires i < |s| && UniqueKeys(s, key)
    ensures var r := s[..i] + s[i + 1..];
            UniqueKeys(r, key) && forall e :: e in r ==> key(e) != key(s[i])
  {
    var r := s[..i] + s[i + 1..];
    forall a, b | 0 <= a < b < |r| ensures key(r[a]) != key(r[b]) {
      var a', b' := if a < i then a else a + 1, if b < i then b else b + 1;
      assert r[a] == s[a'] && r[b] == s[b'];
    }
    forall e | e in r ensures key(e) != key(s[i]) {
      var k :| 0 <= k < |r| && r[k] == e;
      assert r[k] == s[if k < i then k else k + 1];
    }
  }

  /**
   * Upsert (remove the first element with x's id, then append x) keeps keys
   * unique, and x is then the only element with its id.
   */
  lemma UpsertKeepsUnique<T>(s: seq<T>, key: T -> string, x: T)
    requires UniqueKeys(s, key)
    ensures var r := RemoveFirstWithId(s, key, key(x)) + [x];
            && UniqueKeys(r, key)
            && FirstIndexWithId(r, key, key(x)) == Some(|r| - 1)
  {
    var rest := RemoveFirstWithId(s, key, key(x));
    RemoveKeepsUnique(s, key, key(x));
    var r := rest + [x];
    forall a, b | 0 <= a < b < |r| ensures key(r[a]) != key(r[b]) {
      if b == |r| - 1 {
        assert r[a] in rest;
      } else {
        assert r[a] == rest[a] && r[b] == rest[b];
      }
    }
    forall j | 0 <= j < |r| - 1 ensures key(r[j]) != key(x) {
      assert r[j] in rest;
    }
    FirstIndexIsUnique(r, key, key(x), |r| - 1);
  }

  /** The first index with an id is the one index with that id before which no element has it. */
  lemma FirstIndexIsUnique<T>(s: seq<T>, key: T -> string, id: string, i: nat)
    requires i < |s| && key(s[i]) == id
    requires forall j :: 0 <= j < i ==> key(s[j]) != id
    ensures FirstIndexWithId(s, key, id) == Some(i)
  {
  }
}
