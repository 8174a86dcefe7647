/**
 The circular doubly linked list of bio.c, as two pointer tables. `ring` lists the nodes in
 the order of the next pointers, from the head on.
 */
module Ring {
  import opened Sequences

  /** next and prev run round the ring, in opposite directions. */
  ghost predicate Linked(prev: seq<nat>, next: seq<nat>, ring: seq<nat>) {
    && |prev| == |next| && |ring| >= 1 && Distinct(ring)
    && (forall k :: 0 <= k < |ring| ==> ring[k] < |next|)
    && (forall k {:trigger After(ring, k)} :: 0 <= k < |ring| ==> next[ring[k]] == After(ring, k))
    && (forall k {:trigger Before(ring, k)} :: 0 <= k < |ring| ==> prev[ring[k]] == Before(ring, k))
  }

  function After(ring: seq<nat>, k: nat): nat
    requires k < |ring|
  {
    if k + 1 < |ring| then ring[k + 1] else ring[0]
  }

  function Before(ring: seq<nat>, k: nat): nat
    requires k < |ring|
  {
    if k == 0 then ring[|ring| - 1] else ring[k - 1]
  }

  /** The ring without its k-th node. */
  function Without(ring: seq<nat>, k: nat): seq<nat>
    requires k < |ring|
  {
    ring[..k] + ring[k + 1..]
  }

  /** The ring with b just after the head. */
  function InFront(ring: seq<nat>, b: nat): seq<nat>
    requires |ring| >= 1
  {
    [ring[0], b] + ring[1..]
  }

  /** b->next->prev = b->prev; b->prev->next = b->next. */
  lemma Unlink(prev: seq<nat>, next: seq<nat>, ring: seq<nat>, k: nat)
    requires Linked(prev, next, ring) && 1 <= k < |ring|
    ensures prev[ring[k]] < |next| && next[ring[k]] < |next|
    ensures var b := ring[k];
            Linked(prev[next[b] := prev[b]], next[prev[b] := next[b]], Without(ring, k))
  {
    var b := ring[k];
    var r := Without(ring, k);
    assert next[b] == After(ring, k) && prev[b] == Before(ring, k);
    var prev', next' := prev[next[b] := prev[b]], next[prev[b] := next[b]];
    forall j {:trigger After(r, j)} | 0 <= j < |r| ensures next'[r[j]] == After(r, j) {
      UnlinkNext(prev, next, ring, k, j);
    }
    forall j {:trigger Before(r, j)} | 0 <= j < |r| ensures prev'[r[j]] == Before(r, j) {
      UnlinkPrev(prev, next, ring, k, j);
    }
  }

  lemma UnlinkNext(prev: seq<nat>, next: seq<nat>, ring: seq<nat>, k: nat, j: nat)
    requires Linked(prev, next, ring) && 1 <= k < |ring| && j < |ring| - 1
    requires prev[ring[k]] == Before(ring, k) && next[ring[k]] == After(ring, k)
    ensures var b, r := ring[k], Without(ring, k); next[prev[b] := next[b]][r[j]] == After(r, j)
  {
    var i := if j < k then j else j + 1;
    assert Without(ring, k)[j] == ring[i];
    assert next[ring[i]] == After(ring, i);
  }

  lemma UnlinkPrev(prev: seq<nat>, next: seq<nat>, ring: seq<nat>, k: nat, j: nat)
    requires Linked(prev, next, ring) && 1 <= k < |ring| && j < |ring| - 1
    requires prev[ring[k]] == Before(ring, k) && next[ring[k]] == After(ring, k)
    ensures var b, r := ring[k], Without(ring, k); prev[next[b] := prev[b]][r[j]] == Before(r, j)
  {
    var i := if j < k then j else j + 1;
    assert Without(ring, k)[j] == ring[i];
    assert prev[ring[i]] == Before(ring, i);
  }

  /** b->next = head->next; b->prev = head; head->next->prev = b; head->next = b. */
  lemma Push(prev: seq<nat>, next: seq<nat>, ring: seq<nat>, b: nat)
    requires Linked(prev, next, ring) && b < |next| && b !in ring
    ensures next[ring[0]] < |next|
    ensures var h := ring[0];
            Linked(prev[b := h][next[h] := b], next[b := next[h]][h := b], InFront(ring, b))
  {
    var h := ring[0];
    var r := InFront(ring, b);
    assert next[h] == After(ring, 0);
    var prev', next' := prev[b := h][next[h] := b], next[b := next[h]][h := b];
    forall j {:trigger After(r, j)} | 0 <= j < |r| ensures next'[r[j]] == After(r, j) {
      if j >= 2 {
        assert r[j] == ring[j - 1] && next[ring[j - 1]] == After(ring, j - 1);
      }
    }
    forall j {:trigger Before(r, j)} | 0 <= j < |r| ensures prev'[r[j]] == Before(r, j) {
      if j >= 2 {
        assert r[j] == ring[j - 1] && prev[ring[j - 1]] == Before(ring, j - 1);
      } else if j == 0 {
        assert prev[h] == Before(ring, 0);
      }
    }
  }

  /** A node taken out and pushed to the front: the same nodes. */
  lemma SameNodes(ring: seq<nat>, k: nat)
    requires 1 <= k < |ring| && Distinct(ring)
    ensures ring[k] !in Without(ring, k)
    ensures var r := InFront(Without(ring, k), ring[k]); |r| == |ring| && forall x :: x in ring ==> x in r
  {
    var w := Without(ring, k);
    var r := InFront(w, ring[k]);
    forall i | 0 <= i < |ring| ensures ring[i] in r {
      if i == k {
        assert r[1] == ring[k];
      } else if 0 < i < k {
        assert r[i + 1] == ring[i];
      } else {
        assert r[i] == ring[i];
      }
    }
  }
}
