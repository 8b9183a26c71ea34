/**
 * One cache set as the simulator keeps it: the tags of its resident lines,
 * most recently used first and least recently used last. A probe either hits
 * (the line moves to the front) or misses (optionally evicting the last line
 * when the set is full, then inserting the new tag at the front).
 */
module Lru {

  /** The outcome of probing a set: whether the tag was resident, and the set afterwards. */
  datatype Probe = Probe(hit: bool, lines: seq<nat>)

  predicate Distinct(s: seq<nat>)
  {
    forall i, j :: 0 <= i < j < |s| ==> s[i] != s[j]
  }

  /** The invariant of every set: no more lines than the associativity, no tag twice. */
  predicate ValidSet(s: seq<nat>, assoc: nat)
  {
    |s| <= assoc && Distinct(s)
  }

  /** `s` without its first occurrence of `x`, the other tags in their original order. */
  function RemoveFirst(s: seq<nat>, x: nat): (r: seq<nat>)
    ensures x in s ==> |r| == |s| - 1
    ensures x !in s ==> r == s
  {
    if s == [] then []
    else if s[0] == x then s[1..] else [s[0]] + RemoveFirst(s[1..], x)
  }

  /** Removing the first `x` takes exactly one `x` out of the bag of tags. */
  lemma {:induction false} RemoveFirstMultiset(s: seq<nat>, x: nat)
    ensures multiset(RemoveFirst(s, x)) == multiset(s) - multiset{x}
  {
    if s != [] {
      assert s == [s[0]] + s[1..];
      RemoveFirstMultiset(s[1..], x);
    }
  }

  /** A hit: the line holding `tag` becomes the most recently used one. */
  function Promote(s: seq<nat>, tag: nat): seq<nat>
  {
    [tag] + RemoveFirst(s, tag)
  }

  /** A miss that allocates: drop the last (least recently used) line when full, put `tag` first. */
  function Fill(s: seq<nat>, tag: nat, assoc: nat): seq<nat>
    requires assoc >= 1
  {
    [tag] + (if |s| == assoc then s[..|s| - 1] else s)
  }

  /** What `access_cache` does to one set for `tag`; `update` says whether a miss allocates. */
  function Access(s: seq<nat>, tag: nat, assoc: nat, update: bool): Probe
    requires assoc >= 1
  {
    if tag in s then Probe(true, Promote(s, tag))
    else if update then Probe(false, Fill(s, tag, assoc))
    else Probe(false, s)
  }

  /** `x` sits at position `i` of `s` and nowhere before it. */
  predicate FirstAt(s: seq<nat>, x: nat, i: nat)
  {
    i < |s| && s[i] == x && forall k :: 0 <= k < i ==> s[k] != x
  }

  /** Removing the first `x`, found at position `i`, is cutting position `i` out. */
  lemma {:induction false} RemoveFirstAt(s: seq<nat>, x: nat, i: nat)
    requires FirstAt(s, x, i)
    ensures RemoveFirst(s, x) == s[..i] + s[i + 1..]
  {
    if i == 0 {
      assert s[..0] + s[1..] == s[1..];
    } else {
      var t := s[1..];
      assert s[0] != x;
      assert FirstAt(t, x, i - 1) by {
        forall k | 0 <= k < i - 1 ensures t[k] != x {
          assert t[k] == s[k + 1];
        }
      }
      RemoveFirstAt(t, x, i - 1);
      var head, mid, tail := [s[0]], t[..i - 1], t[i..];
      assert RemoveFirst(s, x) == head + (mid + tail);
      assert head + (mid + tail) == (head + mid) + tail;
      assert head + mid == s[..i];
      assert tail == s[i + 1..];
    }
  }

  lemma DistinctCut(s: seq<nat>, i: nat)
    requires Distinct(s) && i < |s|
    ensures Distinct(s[..i] + s[i + 1..]) && s[i] !in s[..i] + s[i + 1..]
  {
    var r := s[..i] + s[i + 1..];
    assert forall k :: 0 <= k < |r| ==> r[k] == s[if k < i then k else k + 1];
  }

  lemma DistinctPrefix(s: seq<nat>, n: nat)
    requires Distinct(s) && n <= |s|
    ensures Distinct(s[..n])
  {
  }

  /**
   * A hit returns TRUE and reorders the set only: the hit tag is now first, the rest keep
   * their relative order, and the set has the same length and the same tags.
   */
  lemma {:induction false} HitMovesToFront(s: seq<nat>, tag: nat, assoc: nat, update: bool)
    requires assoc >= 1 && tag in s
    ensures var p := Access(s, tag, assoc, update);
      && p.hit
      && p.lines[0] == tag
      && |p.lines| == |s|
      && multiset(p.lines) == multiset(s)
      && (forall i: nat :: FirstAt(s, tag, i) ==> p.lines[1..] == s[..i] + s[i + 1..])
  {
    var p := Access(s, tag, assoc, update);
    assert p.lines[1..] == RemoveFirst(s, tag);
    RemoveFirstMultiset(s, tag);
    forall i: nat | FirstAt(s, tag, i)
      ensures p.lines[1..] == s[..i] + s[i + 1..]
    {
      RemoveFirstAt(s, tag, i);
    }
  }

  /**
   * A miss that allocates returns FALSE and puts `tag` first. When the set was full exactly
   * its last tag is gone (the rest in order); otherwise every old tag is kept in order.
   */
  lemma MissEvictsLeastRecent(s: seq<nat>, tag: nat, assoc: nat)
    requires assoc >= 1 && ValidSet(s, assoc) && tag !in s
    ensures var p := Access(s, tag, assoc, true);
      && !p.hit
      && p.lines[0] == tag
      && (|s| == assoc ==> p.lines[1..] + [s[|s| - 1]] == s && s[|s| - 1] !in p.lines)
      && (|s| < assoc ==> p.lines[1..] == s && |p.lines| == |s| + 1)
  {
    var p := Access(s, tag, assoc, true);
    if |s| == assoc {
      assert s[..|s| - 1] + [s[|s| - 1]] == s;
      assert s[|s| - 1] !in s[..|s| - 1];
    }
  }

  /** A miss that does not allocate leaves the set exactly as it was. */
  lemma MissWithoutUpdateKeepsSet(s: seq<nat>, tag: nat, assoc: nat)
    requires assoc >= 1 && tag !in s
    ensures Access(s, tag, assoc, false) == Probe(false, s)
  {
  }

  /** Every probe keeps "at most assoc lines, all tags distinct". */
  lemma AccessKeepsValid(s: seq<nat>, tag: nat, assoc: nat, update: bool)
    requires assoc >= 1 && ValidSet(s, assoc)
    ensures ValidSet(Access(s, tag, assoc, update).lines, assoc)
    ensures update ==> Access(s, tag, assoc, update).lines[0] == tag
  {
    if tag in s {
      PromoteKeepsDistinct(s, tag);
    } else if update && |s| == assoc {
      FillKeepsDistinct(s, tag, assoc);
    }
  }

  lemma PromoteKeepsDistinct(s: seq<nat>, tag: nat)
    requires Distinct(s) && tag in s
    ensures Distinct(Promote(s, tag))
  {
    FirstOccurrence(s, tag);
    var j: nat :| FirstAt(s, tag, j);
    RemoveFirstAt(s, tag, j);
    DistinctCut(s, j);
  }

  lemma FillKeepsDistinct(s: seq<nat>, tag: nat, assoc: nat)
    requires assoc >= 1 && Distinct(s) && |s| == assoc && tag !in s
    ensures Distinct(Fill(s, tag, assoc))
  {
    var kept := s[..|s| - 1];
    DistinctPrefix(s, |s| - 1);
    assert tag !in kept;
    var r := [tag] + kept;
    assert forall i :: 1 <= i < |r| ==> r[i] == kept[i - 1];
  }

  lemma {:induction false} FirstOccurrence(s: seq<nat>, x: nat)
    requires x in s
    ensures exists j: nat :: FirstAt(s, x, j)
  {
    if s[0] == x {
      assert FirstAt(s, x, 0);
    } else {
      var t := s[1..];
      FirstOccurrence(t, x);
      var j: nat :| FirstAt(t, x, j);
      assert FirstAt(s, x, j + 1) by {
        forall k | 0 <= k < j + 1 ensures s[k] != x {
          if k > 0 {
            assert s[k] == t[k - 1];
          }
        }
      }
    }
  }

  /** Probing the same tag twice in a row: the second probe hits and changes nothing. */
  lemma RepeatedAccessHits(s: seq<nat>, tag: nat, assoc: nat)
    requires assoc >= 1
    ensures var first := Access(s, tag, assoc, true);
      var second := Access(first.lines, tag, assoc, true);
      second.hit && second.lines == first.lines
  {
    var first := Access(s, tag, assoc, true);
    assert first.lines[0] == tag;
    assert RemoveFirst(first.lines, tag) == first.lines[1..];
  }

  /** The set after allocating probes for each of `tags` in turn, starting from `s`. */
  function Replay(s: seq<nat>, tags: seq<nat>, assoc: nat): seq<nat>
    requires assoc >= 1
  {
    if tags == [] then s
    else Access(Replay(s, tags[..|tags| - 1], assoc), tags[|tags| - 1], assoc, true).lines
  }

  function Reverse(s: seq<nat>): (r: seq<nat>)
    ensures |r| == |s|
    ensures forall i :: 0 <= i < |s| ==> r[i] == s[|s| - 1 - i]
  {
    if s == [] then [] else [s[|s| - 1]] + Reverse(s[..|s| - 1])
  }

  /**
   * Filling an empty set with distinct tags keeps the most recent `assoc` of them,
   * newest first: least recently used lines are the ones evicted.
   */
  lemma {:induction false} ReplayDistinctFromEmpty(tags: seq<nat>, assoc: nat)
    requires assoc >= 1 && Distinct(tags)
    ensures Replay([], tags, assoc)
            == Reverse(tags)[..if |tags| < assoc then |tags| else assoc]
  {
    if tags != [] {
      var init, t := tags[..|tags| - 1], tags[|tags| - 1];
      DistinctPrefix(tags, |tags| - 1);
      ReplayDistinctFromEmpty(init, assoc);
      var rev := Reverse(init);
      var prev := Replay([], init, assoc);
      LastIsNew(tags);
      NotInReversedPrefix(init, t, if |init| < assoc then |init| else assoc);
      assert Replay([], tags, assoc) == Fill(prev, t, assoc);
      assert Reverse(tags) == [t] + rev;
      FillNewest(rev, prev, t, assoc);
    }
  }

  lemma LastIsNew(tags: seq<nat>)
    requires Distinct(tags) && tags != []
    ensures tags[|tags| - 1] !in tags[..|tags| - 1]
  {
  }

  lemma NotInReversedPrefix(s: seq<nat>, x: nat, m: nat)
    requires x !in s && m <= |s|
    ensures x !in Reverse(s)[..m]
  {
    var r := Reverse(s)[..m];
    forall k | 0 <= k < m ensures r[k] != x {
      assert r[k] == s[|s| - 1 - k];
    }
  }

  /** Filling the newest `assoc` of `rev` with a new tag gives the newest `assoc` of `[t] + rev`. */
  lemma FillNewest(rev: seq<nat>, prev: seq<nat>, t: nat, assoc: nat)
    requires assoc >= 1
    requires prev == rev[..if |rev| < assoc then |rev| else assoc]
    ensures Fill(prev, t, assoc) == ([t] + rev)[..if |rev| + 1 < assoc then |rev| + 1 else assoc]
  {
    if |rev| < assoc {
      assert prev == rev;
    } else {
      assert prev[..assoc - 1] == rev[..assoc - 1];
      assert ([t] + rev)[..assoc] == [t] + rev[..assoc - 1];
    }
  }

  /**
   * With `assoc + 1` distinct tags mapping to one set, the first is the one evicted:
   * it is no longer resident (its next probe misses) and all later ones still are.
   */
  lemma OldestEvictedFirst(tags: seq<nat>, assoc: nat)
    requires assoc >= 1 && Distinct(tags) && |tags| == assoc + 1
    ensures tags[0] !in Replay([], tags, assoc)
    ensures !Access(Replay([], tags, assoc), tags[0], assoc, true).hit
    ensures forall i :: 1 <= i < |tags| ==> tags[i] in Replay([], tags, assoc)
  {
    ReplayDistinctFromEmpty(tags, assoc);
    var r := Replay([], tags, assoc);
    assert forall k :: 0 <= k < |r| ==> r[k] == tags[|tags| - 1 - k];
    forall i | 1 <= i < |tags| ensures tags[i] in r {
      assert r[|tags| - 1 - i] == tags[i];
    }
  }
}
