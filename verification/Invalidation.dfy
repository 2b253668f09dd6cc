/** Which cached keys a write clears, and the pattern deletion that clears them. Every pattern is a
    fixed text followed by a star, so matching is having that text as a prefix. */
module Invalidation {

  const GAMES_PATTERN := "public:games:"
  const SERVICES_PATTERN := "public:services:"
  const REVIEWS_PATTERN := "public:reviews:"

  function Patterns(entity: string): seq<string> {
    match entity
    case "games" => [GAMES_PATTERN]
    case "services" => [SERVICES_PATTERN, GAMES_PATTERN]
    case "reviews" => [REVIEWS_PATTERN]
    case _ => []
  }

  predicate StartsWith(key: string, text: string) {
    text <= key
  }

  predicate Matches(patterns: seq<string>, key: string) {
    exists k :: 0 <= k < |patterns| && StartsWith(key, patterns[k])
  }

  /** A complete scan: every matching key at least once and nothing else. */
  ghost predicate IsScan<V>(scanned: seq<string>, keys: map<string, V>, pattern: string) {
    forall key :: key in scanned <==> key in keys && StartsWith(key, pattern)
  }

  function Cleared<V>(keys: map<string, V>, patterns: seq<string>): map<string, V> {
    map key | key in keys && !Matches(patterns, key) :: keys[key]
  }

  /** Whether a write to this entity clears this key: a game write the games keys, a service or option write
      the services and the games keys, a review write the reviews keys. */
  predicate IsClearedBy(entity: string, key: string) {
    || (entity in {"games", "services"} && "public:games:" <= key)
    || (entity == "services" && "public:services:" <= key)
    || (entity == "reviews" && "public:reviews:" <= key)
  }

  /** The patterns match exactly these keys. */
  lemma PatternsMean(entity: string, key: string)
    ensures Matches(Patterns(entity), key) <==> IsClearedBy(entity, key)
  {
    var patterns := Patterns(entity);
    assert entity == "games" ==> |patterns| == 1 && patterns[0] == GAMES_PATTERN;
    assert entity == "reviews" ==> |patterns| == 1 && patterns[0] == REVIEWS_PATTERN;
    assert entity == "services" ==> |patterns| == 2 && patterns[0] == SERVICES_PATTERN && patterns[1] == GAMES_PATTERN;
    assert entity !in {"games", "services", "reviews"} ==> |patterns| == 0;
    assert forall k :: 0 <= k < |patterns| && StartsWith(key, patterns[k]) ==> Matches(patterns, key);
    if entity == "games" { assert Matches(patterns, key) <==> StartsWith(key, patterns[0]); }
    if entity == "reviews" { assert Matches(patterns, key) <==> StartsWith(key, patterns[0]); }
    if entity == "services" {
      assert Matches(patterns, key) <==> StartsWith(key, patterns[0]) || StartsWith(key, patterns[1]);
    }
  }

  /** The keys left are those the entity does not clear, each as it was. */
  lemma ClearedMeans<V>(keys: map<string, V>, entity: string)
    ensures Cleared(keys, Patterns(entity)) == map key | key in keys && !IsClearedBy(entity, key) :: keys[key]
  {
    forall key
      ensures Matches(Patterns(entity), key) <==> IsClearedBy(entity, key)
    {
      PatternsMean(entity, key);
    }
    hide Matches, IsClearedBy, Patterns;
  }

  /** The lock of a cached key is never cleared, whatever is written. */
  lemma LocksSurvive<V>(keys: map<string, V>, entity: string, name: string)
    requires "lock:" + name in keys
    ensures "lock:" + name in Cleared(keys, Patterns(entity))
    ensures Cleared(keys, Patterns(entity))["lock:" + name] == keys["lock:" + name]
  {
    var key, patterns := "lock:" + name, Patterns(entity);
    forall k | 0 <= k < |patterns|
      ensures !StartsWith(key, patterns[k])
    {
      assert patterns[k][0] == 'p' && key[0] == 'l';
    }
  }

  /** No key matches two patterns of one entity. */
  lemma PatternsApart(entity: string, j: nat, k: nat, key: string)
    requires j < k < |Patterns(entity)| && StartsWith(key, Patterns(entity)[j])
    ensures !StartsWith(key, Patterns(entity)[k])
  {
    assert SERVICES_PATTERN[7] != GAMES_PATTERN[7];
  }

  lemma ClearedTwice<V>(keys: map<string, V>, patterns: seq<string>, i: nat)
    requires i < |patterns|
    ensures Cleared(Cleared(keys, patterns[..i]), [patterns[i]]) == Cleared(keys, patterns[..i + 1])
  {
    forall key
      ensures Matches(patterns[..i + 1], key) <==> Matches(patterns[..i], key) || Matches([patterns[i]], key)
    {
      var shorter, longer := patterns[..i], patterns[..i + 1];
      if Matches(longer, key) {
        var k :| 0 <= k < |longer| && StartsWith(key, longer[k]);
        assert if k < i then StartsWith(key, shorter[k]) else StartsWith(key, [patterns[i]][0]);
      }
      if Matches(shorter, key) {
        var k :| 0 <= k < |shorter| && StartsWith(key, shorter[k]);
        assert StartsWith(key, longer[k]);
      }
      if Matches([patterns[i]], key) {
        assert StartsWith(key, longer[i]);
      }
    }
  }

  /** The keys of one Redis database, deleted in place. */
  class KeySpace<V> {
    var keys: map<string, V>

    constructor (keys: map<string, V>)
      ensures this.keys == keys
    {
      this.keys := keys;
    }

    /** SCAN yields every key that matches throughout the scan, possibly more than once; each is
        deleted as it comes, until Redis fails (`failsAt`) or the scan ends. */
    method CacheDeletePattern(pattern: string, scanned: seq<string>, failsAt: nat) returns (deleted: nat)
      requires IsScan(scanned, keys, pattern)
      modifies this
      ensures deleted == Reached(scanned, failsAt)
      ensures forall key :: key in keys <==> key in old(keys) && key !in scanned[..deleted]
      ensures forall key :: key in keys ==> keys[key] == old(keys)[key]
      ensures failsAt >= |scanned| ==> keys == Cleared(old(keys), [pattern])
    {
      deleted := 0;
      while deleted < |scanned|
        invariant deleted <= |scanned| && deleted <= failsAt
        invariant forall key :: key in keys <==> key in old(keys) && key !in scanned[..deleted]
        invariant forall key :: key in keys ==> keys[key] == old(keys)[key]
      {
        if deleted == failsAt { return; }
        keys := keys - {scanned[deleted]};
        deleted := deleted + 1;
      }
      assert forall key :: StartsWith(key, pattern) ==> StartsWith(key, [pattern][0]);
    }

    /** Pattern after pattern, and a Redis failure in one does not keep the next from being cleared. The
        keys deleted are those scanned before the failures, and the total counts those deletions; without
        failures exactly what the entity's patterns match goes. An unknown entity clears nothing. */
    method InvalidatePublicCache(entity: string, scans: seq<seq<string>>, failsAt: seq<nat>) returns (total: nat)
      requires |scans| == |failsAt| == |Patterns(entity)|
      requires forall k :: 0 <= k < |scans| ==> IsScan(scans[k], keys, Patterns(entity)[k])
      modifies this
      ensures total == Deletions(scans, failsAt)
      ensures forall key :: key in keys <==> key in old(keys) && !Scanned(scans, failsAt, key)
      ensures forall key :: key in keys ==> keys[key] == old(keys)[key]
      ensures (forall k :: 0 <= k < |scans| ==> failsAt[k] >= |scans[k]|) ==>
                keys == map key | key in old(keys) && !IsClearedBy(entity, key) :: old(keys)[key]
    {
      ClearedMeans(keys, entity);
      hide IsClearedBy;
      total := 0;
      var patterns := Patterns(entity);
      for i := 0 to |patterns|
        invariant total == Deletions(scans[..i], failsAt[..i])
        invariant forall key :: key in keys <==> key in old(keys) && !Scanned(scans[..i], failsAt[..i], key)
        invariant forall key :: key in keys ==> keys[key] == old(keys)[key]
        invariant (forall k :: 0 <= k < i ==> failsAt[k] >= |scans[k]|) ==> keys == Cleared(old(keys), patterns[..i])
        invariant forall k :: i <= k < |scans| ==> IsScan(scans[k], keys, patterns[k])
      {
        var n := CacheDeletePattern(patterns[i], scans[i], failsAt[i]);
        total := total + n;
        ClearedTwice(old(keys), patterns, i);
        ScannedOneMore(scans, failsAt, i);
        forall k, key | i < k < |scans| && StartsWith(key, patterns[k])
          ensures !StartsWith(key, patterns[i])
        {
          if StartsWith(key, patterns[i]) { PatternsApart(entity, i, k, key); }
        }
      }
      assert patterns[..|patterns|] == patterns && scans[..|scans|] == scans && failsAt[..|failsAt|] == failsAt;
    }
  }

  /** How many of the scanned keys are deleted if Redis fails at one of them. */
  function Reached(scan: seq<string>, failsAt: nat): nat {
    if failsAt < |scan| then failsAt else |scan|
  }

  function Deletions(scans: seq<seq<string>>, failsAt: seq<nat>): nat
    requires |scans| == |failsAt|
  {
    if scans == [] then 0 else
      var n := |scans| - 1;
      Deletions(scans[..n], failsAt[..n]) + Reached(scans[n], failsAt[n])
  }

  /** The key comes up in some scan before that scan fails. */
  ghost predicate Scanned(scans: seq<seq<string>>, failsAt: seq<nat>, key: string)
    requires |scans| == |failsAt|
  {
    exists k :: 0 <= k < |scans| && key in scans[k][..Reached(scans[k], failsAt[k])]
  }

  lemma ScannedOneMore(scans: seq<seq<string>>, failsAt: seq<nat>, i: nat)
    requires |scans| == |failsAt| && i < |scans|
    ensures Deletions(scans[..i + 1], failsAt[..i + 1]) ==
            Deletions(scans[..i], failsAt[..i]) + Reached(scans[i], failsAt[i])
    ensures forall key :: Scanned(scans[..i + 1], failsAt[..i + 1], key) <==>
              Scanned(scans[..i], failsAt[..i], key) || key in scans[i][..Reached(scans[i], failsAt[i])]
  {
    assert scans[..i + 1][..i] == scans[..i] && failsAt[..i + 1][..i] == failsAt[..i];
    forall key
      ensures Scanned(scans[..i + 1], failsAt[..i + 1], key) <==>
                Scanned(scans[..i], failsAt[..i], key) || key in scans[i][..Reached(scans[i], failsAt[i])]
    {
      if Scanned(scans[..i], failsAt[..i], key) {
        var k :| 0 <= k < i && key in scans[..i][k][..Reached(scans[..i][k], failsAt[..i][k])];
        assert scans[..i + 1][k] == scans[k] && failsAt[..i + 1][k] == failsAt[k];
      }
      if key in scans[i][..Reached(scans[i], failsAt[i])] {
        assert scans[..i + 1][i] == scans[i] && failsAt[..i + 1][i] == failsAt[i];
      }
      if Scanned(scans[..i + 1], failsAt[..i + 1], key) {
        var k :| 0 <= k < i + 1 && key in scans[..i + 1][k][..Reached(scans[..i + 1][k], failsAt[..i + 1][k])];
        assert k < i ==> scans[..i][k] == scans[k] && failsAt[..i][k] == failsAt[k];
      }
    }
  }
}
