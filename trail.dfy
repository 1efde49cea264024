/** The cursor trail: every frame the cursor position is appended with the
    current time, samples older than the trail lifetime are dropped, and each
    survivor is drawn with an opacity that fades linearly with its age. */
module Trail {

  /** `trailLifetime`, in milliseconds. */
  const Lifetime: real := 100.0

  /** One remembered cursor position and the time it was recorded. */
  datatype Sample = Sample(x: real, y: real, t: real)

  /** The filter's test: a sample survives while its age is at most the lifetime. */
  predicate Live(s: Sample, now: real) {
    now - s.t <= Lifetime
  }

  /** The samples are in recording order, oldest first. */
  predicate Chronological(trail: seq<Sample>) {
    forall i, j :: 0 <= i < j < |trail| ==> trail[i].t <= trail[j].t
  }

  /** No sample was recorded after `now`. */
  predicate NotAfter(trail: seq<Sample>, now: real) {
    forall i :: 0 <= i < |trail| ==> trail[i].t <= now
  }

  /** `trails.filter(tr => now - tr.t <= trailLifetime)`: exactly the live
      samples, and nothing that was not already in the trail. */
  function Prune(trail: seq<Sample>, now: real): (r: seq<Sample>)
    ensures |r| <= |trail|
    ensures forall i :: 0 <= i < |r| ==> Live(r[i], now)
    ensures forall s :: s in r ==> s in trail
    ensures forall i :: 0 <= i < |trail| && Live(trail[i], now) ==> trail[i] in r
    decreases |trail|
  {
    if trail == [] then []
    else if Live(trail[0], now) then [trail[0]] + Prune(trail[1..], now)
    else Prune(trail[1..], now)
  }

  /** The filter works piece by piece: pruning a concatenation prunes each
      part and keeps them in order. */
  lemma {:induction false} PruneAppend(a: seq<Sample>, b: seq<Sample>, now: real)
    ensures Prune(a + b, now) == Prune(a, now) + Prune(b, now)
    decreases |a|
  {
    if a == [] {
      assert a + b == b;
    } else {
      assert (a + b)[0] == a[0] && (a + b)[1..] == a[1..] + b;
      PruneAppend(a[1..], b, now);
    }
  }

  /** A trail with only live samples passes the filter unchanged. */
  lemma {:induction false} PruneKeepsLive(trail: seq<Sample>, now: real)
    requires forall i :: 0 <= i < |trail| ==> Live(trail[i], now)
    ensures Prune(trail, now) == trail
    decreases |trail|
  {
    if trail != [] {
      PruneKeepsLive(trail[1..], now);
    }
  }

  /** Filtering twice is filtering once. */
  lemma PruneIdempotent(trail: seq<Sample>, now: real)
    ensures Prune(Prune(trail, now), now) == Prune(trail, now)
  {
    PruneKeepsLive(Prune(trail, now), now);
  }

  /** Pushing the current position and then filtering keeps the survivors of
      the old trail in their order and puts the new sample, whose age is zero,
      last. */
  lemma PushThenPrune(trail: seq<Sample>, s: Sample)
    ensures Prune(trail + [s], s.t) == Prune(trail, s.t) + [s]
  {
    PruneAppend(trail, [s], s.t);
    assert [s][1..] == [];
  }

  /** Filtering keeps the recording order. */
  lemma {:induction false} PruneChronological(trail: seq<Sample>, now: real)
    requires Chronological(trail)
    ensures Chronological(Prune(trail, now))
    decreases |trail|
  {
    if trail != [] {
      var rest := trail[1..];
      PruneChronological(rest, now);
      if Live(trail[0], now) {
        var r := [trail[0]] + Prune(rest, now);
        forall i, j | 0 <= i < j < |r| ensures r[i].t <= r[j].t {
          if i == 0 {
            assert r[j] in rest;
          }
        }
      }
    }
  }

  /** On a chronological trail the filter drops a prefix: the trail behaves as
      a queue whose oldest samples leave first. */
  lemma {:induction false} PruneDropsPrefix(trail: seq<Sample>, now: real) returns (k: nat)
    requires Chronological(trail)
    ensures k <= |trail| && Prune(trail, now) == trail[k..]
    ensures forall i :: 0 <= i < k ==> !Live(trail[i], now)
    decreases |trail|
  {
    if trail == [] {
      k := 0;
    } else if Live(trail[0], now) {
      PruneKeepsLive(trail, now);
      k := 0;
    } else {
      var k' := PruneDropsPrefix(trail[1..], now);
      k := k' + 1;
      assert trail[1..][k'..] == trail[k..];
    }
  }

  /** `α = 1 - (now - tr.t)/trailLifetime`: full opacity for a sample taken
      now, none at all for one exactly one lifetime old. */
  function Alpha(t: real, now: real): (a: real)
    ensures t <= now && now - t <= Lifetime ==> 0.0 <= a <= 1.0
    ensures t == now ==> a == 1.0
    ensures now - t == Lifetime ==> a == 0.0
  {
    1.0 - (now - t) / Lifetime
  }

  /** An older sample is never drawn more opaquely than a newer one. */
  lemma AlphaFades(older: real, newer: real, now: real)
    requires older <= newer
    ensures Alpha(older, now) <= Alpha(newer, now)
  {
  }

  /** The drawing loop over the surviving samples: the opacity each one is
      drawn with. */
  method FadeLevels(trail: seq<Sample>, now: real) returns (alphas: seq<real>)
    requires NotAfter(trail, now)
    requires forall i :: 0 <= i < |trail| ==> Live(trail[i], now)
    ensures |alphas| == |trail|
    ensures forall i :: 0 <= i < |trail| ==> alphas[i] == Alpha(trail[i].t, now)
    ensures forall i :: 0 <= i < |trail| ==> 0.0 <= alphas[i] <= 1.0
    ensures Chronological(trail) ==> forall i, j :: 0 <= i < j < |trail| ==> alphas[i] <= alphas[j]
  {
    alphas := [];
    for i := 0 to |trail|
      invariant |alphas| == i
      invariant forall k :: 0 <= k < i ==> alphas[k] == Alpha(trail[k].t, now)
      invariant forall k :: 0 <= k < i ==> 0.0 <= alphas[k] <= 1.0
    {
      alphas := alphas + [Alpha(trail[i].t, now)];
    }
  }

  /** The trail list the sketch keeps between frames. */
  class TrailBuffer {
    var samples: seq<Sample>

    predicate Valid()
      reads this
    {
      Chronological(samples)
    }

    constructor ()
      ensures Valid() && samples == []
    {
      samples := [];
    }

    /** One frame of the trail: push the cursor position stamped `now`,
        filter out stale samples, and return the opacity of each survivor.
        The clock never runs backwards, so no sample is newer than `now`. */
    method Tick(mouseX: real, mouseY: real, now: real) returns (alphas: seq<real>)
      requires Valid()
      requires NotAfter(samples, now)
      modifies this
      ensures Valid()
      ensures samples == Prune(old(samples), now) + [Sample(mouseX, mouseY, now)]
      ensures NotAfter(samples, now)
      ensures forall i :: 0 <= i < |samples| ==> Live(samples[i], now)
      ensures |alphas| == |samples|
      ensures forall i :: 0 <= i < |samples| ==> alphas[i] == Alpha(samples[i].t, now) && 0.0 <= alphas[i] <= 1.0
      ensures alphas[|alphas| - 1] == 1.0
    {
      var pushed := samples + [Sample(mouseX, mouseY, now)];
      assert Chronological(pushed);
      samples := Prune(pushed, now);
      PushThenPrune(old(samples), Sample(mouseX, mouseY, now));
      PruneChronological(pushed, now);
      forall i | 0 <= i < |samples| ensures samples[i].t <= now {
        assert samples[i] in pushed;
      }
      alphas := FadeLevels(samples, now);
    }
  }
}
