/** The observation plan: an ordered list of sky positions, each with its
    own exposure feedback. The plan is a repeating duty cycle; every pass
    visits again from its first entry. */
module Plan {
  import Exposure
  import opened Hardware

  /** One plan entry. `azimuth` and `zenith` are its sky-scanner location;
      the last three fields are the feedback the loop updates. */
  datatype Observation = Observation(
    azimuth: real,
    zenith: real,
    filterPosition: int,
    imageTag: string,
    desiredIntensity: real,
    defaultExposureTime: real,
    lastIntensity: real,
    lastExpTime: real,
    exposureTime: real)

  /** The two entries agree on everything but the feedback fields. */
  predicate SameTarget(a: Observation, b: Observation)
  {
    a.azimuth == b.azimuth && a.zenith == b.zenith && a.filterPosition == b.filterPosition &&
    a.imageTag == b.imageTag && a.desiredIntensity == b.desiredIntensity &&
    a.defaultExposureTime == b.defaultExposureTime
  }

  /** The exposure time the feedback law picks for this entry. */
  function NextExposure(o: Observation, maxExposureTime: real): real
  {
    Exposure.ExposureTime(o.lastIntensity, o.lastExpTime, o.desiredIntensity,
                          o.defaultExposureTime, maxExposureTime)
  }

  /** The entry after an exposure of `exposureTime` that measured `intensity`. */
  function RecordFeedback(o: Observation, exposureTime: real, intensity: real): (o': Observation)
    ensures SameTarget(o, o')
    ensures o'.exposureTime == exposureTime && o'.lastExpTime == exposureTime
    ensures o'.lastIntensity == intensity
  {
    o.(exposureTime := exposureTime, lastExpTime := exposureTime, lastIntensity := intensity)
  }

  /** After a first exposure (at the default) that measured a positive
      intensity, the next exposure follows the damped step from it and is
      capped. */
  lemma FeedbackDrivesNextExposure(o: Observation, maxExposureTime: real, intensity: real)
    requires o.lastIntensity == 0.0 && o.defaultExposureTime > 0.0 && intensity > 0.0
    ensures var t := NextExposure(o, maxExposureTime);
            var o' := RecordFeedback(o, t, intensity);
            t == o.defaultExposureTime &&
            NextExposure(o', maxExposureTime) ==
              Exposure.Min(Exposure.DampedStep(intensity, t, o.desiredIntensity), maxExposureTime) &&
            NextExposure(o', maxExposureTime) <= maxExposureTime
  {
  }

  /** One entry visited by the night loop. `at` is the position of the clock
      reading checked just before the visit, `reading` that reading and
      `finish` the position of the next clock reading after it; `moonRead` is the position of its moon-angle query; `imageRead` and
      `imagesAfter` the number of image intensities used before and after
      it; `laserBefore` and `laserAfter` the time of the last laser image
      before and after it; `before` and `after` are the entry before and
      after the visit, and `commands` the commands it sent. */
  datatype Visit = Visit(
    index: nat,
    at: nat,
    finish: nat,
    reading: int,
    moonRead: nat,
    imageRead: nat,
    imagesAfter: nat,
    laserBefore: int,
    laserAfter: int,
    before: Observation,
    after: Observation,
    commands: seq<Cmd>)

  /** The visits happened one after the other: each made the next moon-angle
      query, began at a later clock reading than the one before, and found
      the laser time and the image count the one before left. */
  ghost predicate Consecutive(vs: seq<Visit>, laser0: int, images0: nat, moon0: nat)
    decreases |vs|
  {
    |vs| == 0 ||
    (var init, v := vs[..|vs| - 1], vs[|vs| - 1];
     Consecutive(init, laser0, images0, moon0) &&
     v.moonRead == moon0 + |init| &&
     v.laserBefore == LaserEnd(init, laser0) && v.imageRead == ImagesEnd(init, images0) &&
     (|init| > 0 ==> init[|init| - 1].at < v.at))
  }

  /** The laser time and the image count after the visits. */
  function LaserEnd(vs: seq<Visit>, laser0: int): int
  {
    if |vs| == 0 then laser0 else vs[|vs| - 1].laserAfter
  }

  function ImagesEnd(vs: seq<Visit>, images0: nat): nat
  {
    if |vs| == 0 then images0 else vs[|vs| - 1].imagesAfter
  }

  /** A single visit that starts where the log starts is consecutive. */
  lemma ConsecutiveSingle(v: Visit, laser0: int, images0: nat, moon0: nat)
    requires v.moonRead == moon0 && v.laserBefore == laser0 && v.imageRead == images0
    ensures Consecutive([v], laser0, images0, moon0)
  {
    var init: seq<Visit> := [];
    assert [v][..0] == init && [v][0] == v;
    assert Consecutive(init, laser0, images0, moon0);
    assert LaserEnd(init, laser0) == laser0 && ImagesEnd(init, images0) == images0;
  }

  /** Consecutive runs of visits, the second starting where the first
      ended, make one. */
  lemma {:induction false} ConsecutiveAppend(s: seq<Visit>, p: seq<Visit>, laser0: int, images0: nat, moon0: nat,
                                             laser1: int, images1: nat, moon1: nat)
    requires Consecutive(s, laser0, images0, moon0)
    requires laser1 == LaserEnd(s, laser0) && images1 == ImagesEnd(s, images0) && moon1 == moon0 + |s|
    requires Consecutive(p, laser1, images1, moon1)
    requires |s| > 0 && |p| > 0 ==> s[|s| - 1].at < p[0].at
    ensures Consecutive(s + p, laser0, images0, moon0)
    ensures LaserEnd(s + p, laser0) == LaserEnd(p, LaserEnd(s, laser0))
    ensures ImagesEnd(s + p, images0) == ImagesEnd(p, ImagesEnd(s, images0))
    decreases |p|
  {
    if |p| == 0 {
      assert s + p == s;
    } else {
      var q, v := p[..|p| - 1], p[|p| - 1];
      if |q| > 0 { assert q[0] == p[0]; }
      ConsecutiveAppend(s, q, laser0, images0, moon0, laser1, images1, moon1);
      var vs := s + p;
      assert vs[..|vs| - 1] == s + q;
      assert vs[|vs| - 1] == v;
      if |q| > 0 { assert (s + q)[|s + q| - 1] == q[|q| - 1]; }
    }
  }

  /** The commands of the visits, in order. */
  function Flatten(vs: seq<Visit>): seq<Cmd>
  {
    if |vs| == 0 then [] else Flatten(vs[..|vs| - 1]) + vs[|vs| - 1].commands
  }

  lemma {:induction false} FlattenAppend(a: seq<Visit>, b: seq<Visit>)
    ensures Flatten(a + b) == Flatten(a) + Flatten(b)
    decreases |b|
  {
    if |b| == 0 {
      assert a + b == a;
    } else {
      var b' := b[..|b| - 1];
      assert (a + b)[..|a + b| - 1] == a + b';
      assert (a + b)[|a + b| - 1] == b[|b| - 1];
      FlattenAppend(a, b');
    }
  }

  lemma FlattenSnoc(vs: seq<Visit>, v: Visit)
    ensures Flatten(vs + [v]) == Flatten(vs) + v.commands
  {
    assert (vs + [v])[..|vs|] == vs;
  }

  /** The position of the clock reading after the visits, when the first
      was begun on the reading at `c0`. */
  function NextRead(vs: seq<Visit>, c0: nat): nat
  {
    if |vs| == 0 then c0 else vs[|vs| - 1].finish
  }

  /** The visits were begun one right after the other: the first on the
      clock reading at `c0`, each later one on the reading right after the
      visit before it. */
  ghost predicate Chained(vs: seq<Visit>, c0: nat)
    decreases |vs|
  {
    |vs| == 0 || (Chained(vs[..|vs| - 1], c0) && vs[|vs| - 1].at == NextRead(vs[..|vs| - 1], c0))
  }

  /** The visits of the passes of a night, in order. */
  function Concat(passes: seq<seq<Visit>>): seq<Visit>
  {
    if |passes| == 0 then [] else Concat(passes[..|passes| - 1]) + passes[|passes| - 1]
  }

  /** Appending command sequences is associative. */
  lemma AppendAssoc(a: seq<Cmd>, b: seq<Cmd>, c: seq<Cmd>)
    ensures (a + b) + c == a + (b + c)
  {
  }

  /** Entry `i` of the plan after the visits `vs`, when it was `initial`
      before them: as the last visit to it left it. */
  function EntryAfter(vs: seq<Visit>, i: nat, initial: Observation): Observation
  {
    if |vs| == 0 then initial
    else if vs[|vs| - 1].index == i then vs[|vs| - 1].after
    else EntryAfter(vs[..|vs| - 1], i, initial)
  }

  /** Visits to other entries leave entry `i` as it was. */
  lemma {:induction false} EntryAfterUnvisited(s: seq<Visit>, t: seq<Visit>, i: nat, initial: Observation)
    requires forall k :: 0 <= k < |t| ==> t[k].index != i
    ensures EntryAfter(s + t, i, initial) == EntryAfter(s, i, initial)
    decreases |t|
  {
    if |t| == 0 {
      assert s + t == s;
    } else {
      var t' := t[..|t| - 1];
      assert (s + t)[..|s + t| - 1] == s + t';
      assert (s + t)[|s + t| - 1] == t[|t| - 1];
      EntryAfterUnvisited(s, t', i, initial);
    }
  }

  /** Each visit to an entry visits from the entry as the visits before it
      left it (or as it was in `plan0`). */
  ghost predicate BeforesFollow(vs: seq<Visit>, plan0: seq<Observation>)
    decreases |vs|
  {
    |vs| == 0 ||
    (var init, v := vs[..|vs| - 1], vs[|vs| - 1];
     BeforesFollow(init, plan0) &&
     (v.index < |plan0| ==> v.before == EntryAfter(init, v.index, plan0[v.index])))
  }

  /** The entries begun form passes over a plan of `n` entries, each pass
      starting from entry 0 and going through the entries in plan order. */
  ghost predicate PassesFromFirst(visits: seq<Visit>, n: nat)
    decreases |visits|
  {
    |visits| == 0 ||
    (var init, v := visits[..|visits| - 1], visits[|visits| - 1];
     PassesFromFirst(init, n) && v.index < n &&
     (v.index == 0 || (|init| > 0 && v.index == init[|init| - 1].index + 1)))
  }

  /** The pass structure at one position: a visit to entry 0, or to the
      entry after the one visited just before. */
  lemma {:induction false} PassesFromFirstAt(visits: seq<Visit>, n: nat, k: nat)
    requires PassesFromFirst(visits, n) && k < |visits|
    ensures visits[k].index < n
    ensures visits[k].index == 0 || (k > 0 && visits[k].index == visits[k - 1].index + 1)
    decreases |visits|
  {
    if k < |visits| - 1 {
      var init := visits[..|visits| - 1];
      PassesFromFirstAt(init, n, k);
      assert init[k] == visits[k];
      if k > 0 { assert init[k - 1] == visits[k - 1]; }
    }
  }

  /** Pass structure: an entry begun at position `k` with index `i` was
      preceded by the entries 0 .. i-1 of the same pass, in order. */
  lemma {:induction false} PassPrefix(visits: seq<Visit>, n: nat, k: nat)
    requires PassesFromFirst(visits, n) && k < |visits|
    ensures visits[k].index <= k
    ensures forall j :: k - visits[k].index <= j <= k ==> visits[j].index == visits[k].index - (k - j)
  {
    PassesFromFirstAt(visits, n, k);
    if k > 0 && visits[k].index != 0 {
      PassPrefix(visits, n, k - 1);
    }
  }

  /** One pass over a plan of `n` entries, possibly cut short: entries
      0, 1, 2, ... in plan order. */
  ghost predicate OnePass(pass: seq<Visit>, n: nat)
  {
    |pass| <= n && forall k :: 0 <= k < |pass| ==> pass[k].index == k
  }

  /** After a pass, the entries it visited are as it left them, the others
      as before it. */
  lemma EntryAfterPass(s: seq<Visit>, pass: seq<Visit>, n: nat, i: nat, initial: Observation)
    requires OnePass(pass, n)
    ensures EntryAfter(s + pass, i, initial) == if i < |pass| then pass[i].after else EntryAfter(s, i, initial)
  {
    if i < |pass| {
      var head := s + pass[..i + 1];
      assert s + pass == head + pass[i + 1..];
      assert head[|head| - 1] == pass[i];
      EntryAfterUnvisited(head, pass[i + 1..], i, initial);
    } else {
      EntryAfterUnvisited(s, pass, i, initial);
    }
  }

  /** A pass that visits from the plan as the earlier visits left it keeps
      the visits' starting points consistent. */
  lemma BeforesFollowExtend(s: seq<Visit>, pass: seq<Visit>, plan0: seq<Observation>, mid: seq<Observation>)
    requires BeforesFollow(s, plan0) && OnePass(pass, |plan0|) && mid == NightResult(plan0, s)
    requires forall k :: 0 <= k < |pass| ==> pass[k].before == mid[k]
    ensures BeforesFollow(s + pass, plan0)
  {
    BeforesFollowExtendTo(s, pass, plan0, mid, |pass|);
    assert pass[..|pass|] == pass;
  }

  /** The same for the first `j` visits of the pass. */
  lemma {:induction false} BeforesFollowExtendTo(s: seq<Visit>, pass: seq<Visit>, plan0: seq<Observation>,
                                                 mid: seq<Observation>, j: nat)
    requires BeforesFollow(s, plan0) && OnePass(pass, |plan0|) && mid == NightResult(plan0, s)
    requires forall k :: 0 <= k < |pass| ==> pass[k].before == mid[k]
    requires j <= |pass|
    ensures BeforesFollow(s + pass[..j], plan0)
    decreases j
  {
    if j == 0 {
      assert s + pass[..0] == s;
    } else {
      BeforesFollowExtendTo(s, pass, plan0, mid, j - 1);
      var n := j - 1;
      var p := pass[..n];
      forall k | 0 <= k < |p|
        ensures p[k].index != n
      {
        assert p[k] == pass[k];
      }
      EntryAfterUnvisited(s, p, n, plan0[n]);
      assert pass[n].before == mid[n] == EntryAfter(s + p, n, plan0[n]);
      var vs := s + pass[..j];
      assert vs[..|vs| - 1] == s + p && vs[|vs| - 1] == pass[n];
    }
  }

  /** A further pass keeps the pass structure. */
  lemma PassesExtend(visits: seq<Visit>, pass: seq<Visit>, n: nat)
    requires PassesFromFirst(visits, n) && OnePass(pass, n)
    ensures PassesFromFirst(visits + pass, n)
  {
    PassesExtendTo(visits, pass, n, |pass|);
    assert pass[..|pass|] == pass;
  }

  /** The first `j` visits of a further pass keep the pass structure. */
  lemma {:induction false} PassesExtendTo(visits: seq<Visit>, pass: seq<Visit>, n: nat, j: nat)
    requires PassesFromFirst(visits, n) && OnePass(pass, n) && j <= |pass|
    ensures PassesFromFirst(visits + pass[..j], n)
    decreases j
  {
    if j == 0 {
      assert visits + pass[..0] == visits;
    } else {
      PassesExtendTo(visits, pass, n, j - 1);
      var s := visits + pass[..j];
      assert s[..|s| - 1] == visits + pass[..j - 1];
      assert s[|s| - 1] == pass[j - 1];
      if j > 1 { assert s[|s| - 2] == pass[j - 2]; }
    }
  }

  /** Per-visit facts of the night loop: each visit began on a reading
      before sunrise, at a clock position in [c0, c1), and changed nothing
      of its entry but the feedback fields. */
  ghost predicate NightLog(vs: seq<Visit>, sunrise: int, c0: nat, c1: nat)
  {
    forall k :: 0 <= k < |vs| ==>
      vs[k].reading < sunrise && c0 <= vs[k].at < c1 && SameTarget(vs[k].before, vs[k].after)
  }

  lemma NightLogLater(vs: seq<Visit>, sunrise: int, c0: nat, c1: nat, c2: nat)
    requires NightLog(vs, sunrise, c0, c1) && c1 <= c2
    ensures NightLog(vs, sunrise, c0, c2)
  {
  }

  lemma NightLogAppend(s: seq<Visit>, p: seq<Visit>, sunrise: int, c0: nat, c1: nat, c2: nat)
    requires NightLog(s, sunrise, c0, c1) && NightLog(p, sunrise, c1, c2) && c0 <= c1 <= c2
    ensures NightLog(s + p, sunrise, c0, c2)
  {
    forall k | 0 <= k < |s + p|
      ensures (s + p)[k].reading < sunrise && c0 <= (s + p)[k].at < c2 &&
              SameTarget((s + p)[k].before, (s + p)[k].after)
    {
      if k < |s| { assert (s + p)[k] == s[k]; } else { assert (s + p)[k] == p[k - |s|]; }
    }
  }

  /** One pass over `plan0`: the visits are entries 0, 1, 2, ... of the
      plan as it was when the pass began. */
  ghost predicate PassLog(pass: seq<Visit>, sunrise: int, c0: nat, c1: nat, plan0: seq<Observation>)
  {
    OnePass(pass, |plan0|) && NightLog(pass, sunrise, c0, c1) &&
    forall k :: 0 <= k < |pass| ==> pass[k].before == plan0[k]
  }

  lemma PassLogSnoc(pass: seq<Visit>, v: Visit, sunrise: int, c0: nat, c1: nat, c2: nat, plan0: seq<Observation>)
    requires PassLog(pass, sunrise, c0, c1, plan0) && |pass| < |plan0| && c0 <= c1
    requires v.index == |pass| && v.reading < sunrise && c1 <= v.at < c2
    requires v.before == plan0[|pass|] && SameTarget(v.before, v.after)
    ensures PassLog(pass + [v], sunrise, c0, c2, plan0)
  {
    var next := pass + [v];
    assert next[|pass|] == v;
    assert forall k :: 0 <= k < |pass| ==> next[k] == pass[k];
    NightLogAppend(pass, [v], sunrise, c0, c1, c2);
  }

  lemma PassLogLater(pass: seq<Visit>, sunrise: int, c0: nat, c1: nat, c2: nat, plan0: seq<Observation>)
    requires PassLog(pass, sunrise, c0, c1, plan0) && c1 <= c2
    ensures PassLog(pass, sunrise, c0, c2, plan0)
  {
    NightLogLater(pass, sunrise, c0, c1, c2);
  }

  /** One visit appended to a pass keeps every fact of the pass. */
  lemma PassStep(pass: seq<Visit>, v: Visit, plan0: seq<Observation>, sunrise: int, c0: nat, c1: nat, c2: nat,
                 l0: int, i0: nat, m0: nat)
    requires PassLog(pass, sunrise, c0, c1, plan0) && |pass| < |plan0| && c0 <= c1
    requires Consecutive(pass, l0, i0, m0)
    requires v.index == |pass| && v.reading < sunrise && c1 <= v.at < c2
    requires v.before == plan0[|pass|] && SameTarget(v.before, v.after)
    requires v.moonRead == m0 + |pass| && v.laserBefore == LaserEnd(pass, l0) && v.imageRead == ImagesEnd(pass, i0)
    requires Chained(pass, c0) && v.at == NextRead(pass, c0)
    ensures PassLog(pass + [v], sunrise, c0, c2, plan0) && Consecutive(pass + [v], l0, i0, m0)
    ensures Chained(pass + [v], c0) && NextRead(pass + [v], c0) == v.finish
    ensures LaserEnd(pass + [v], l0) == v.laserAfter && ImagesEnd(pass + [v], i0) == v.imagesAfter
    ensures PassResult(plan0, pass)[|pass| := v.after] == PassResult(plan0, pass + [v])
    ensures Flatten(pass + [v]) == Flatten(pass) + v.commands
  {
    PassLogSnoc(pass, v, sunrise, c0, c1, c2, plan0);
    PassResultSnoc(plan0, pass, v);
    ConsecutiveSingle(v, LaserEnd(pass, l0), ImagesEnd(pass, i0), m0 + |pass|);
    ConsecutiveAppend(pass, [v], l0, i0, m0, LaserEnd(pass, l0), ImagesEnd(pass, i0), m0 + |pass|);
    FlattenSnoc(pass, v);
    assert (pass + [v])[..|pass|] == pass;
  }

  /** The plan after one pass that began from `plan0`. */
  function PassResult(plan0: seq<Observation>, pass: seq<Visit>): seq<Observation>
  {
    seq(|plan0|, k requires 0 <= k < |plan0| => if k < |pass| then pass[k].after else plan0[k])
  }

  lemma PassResultSnoc(plan0: seq<Observation>, pass: seq<Visit>, v: Visit)
    requires |pass| < |plan0|
    ensures PassResult(plan0, pass)[|pass| := v.after] == PassResult(plan0, pass + [v])
  {
    var next := pass + [v];
    assert next[|pass|] == v;
    assert forall k :: 0 <= k < |pass| ==> next[k] == pass[k];
  }

  /** The plan after the visits `vs`, when it was `plan0` before them. */
  function NightResult(plan0: seq<Observation>, vs: seq<Visit>): seq<Observation>
  {
    seq(|plan0|, i requires 0 <= i < |plan0| => EntryAfter(vs, i, plan0[i]))
  }

  lemma NightResultAppend(plan0: seq<Observation>, s: seq<Visit>, pass: seq<Visit>)
    requires OnePass(pass, |plan0|)
    ensures NightResult(plan0, s + pass) == PassResult(NightResult(plan0, s), pass)
  {
    forall i | 0 <= i < |plan0|
      ensures NightResult(plan0, s + pass)[i] == PassResult(NightResult(plan0, s), pass)[i]
    {
      EntryAfterPass(s, pass, |plan0|, i, plan0[i]);
    }
  }

  /** The clock position after a pass over a plan of `n` entries begun on
      the reading at `c0`: a pass cut short has used up the reading that
      stopped it too. */
  function PassExit(n: nat, pass: seq<Visit>, c0: nat): nat
  {
    NextRead(pass, c0) + (if |pass| < n then 1 else 0)
  }

  /** Where the night loop stands at one of its checks: the clock position
      `check` of the reading the check compares with sunrise, the moon-angle
      queries and sky images used so far, the time of the last laser image
      and the plan. */
  datatype Loop = Loop(check: nat, moon: nat, images: nat, laser: int, plan: seq<Observation>)

  /** Where the loop stands at the next check after `pass`, begun on the
      reading right after the check at `s`. */
  function AfterPass(pass: seq<Visit>, s: Loop): Loop
  {
    Loop(PassExit(|s.plan|, pass, s.check + 1), s.moon + |pass|, ImagesEnd(pass, s.images),
         LaserEnd(pass, s.laser), PassResult(s.plan, pass))
  }

  /** Where the loop stands after the passes, pass by pass from `s0`. */
  function NightState(passes: seq<seq<Visit>>, s0: Loop): Loop
    decreases |passes|
  {
    if |passes| == 0 then s0 else AfterPass(passes[|passes| - 1], NightState(passes[..|passes| - 1], s0))
  }

  /** Over the whole night, every entry keeps its target: only its feedback
      fields change. */
  lemma {:induction false} NightSameTarget(vs: seq<Visit>, plan0: seq<Observation>, i: nat)
    requires BeforesFollow(vs, plan0) && i < |plan0|
    requires forall k :: 0 <= k < |vs| ==> SameTarget(vs[k].before, vs[k].after)
    ensures SameTarget(plan0[i], EntryAfter(vs, i, plan0[i]))
    decreases |vs|
  {
    if |vs| > 0 {
      var init := vs[..|vs| - 1];
      assert forall k :: 0 <= k < |init| ==> init[k] == vs[k];
      NightSameTarget(init, plan0, i);
    }
  }

}
