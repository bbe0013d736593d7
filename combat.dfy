/** The combat exchange as a pure function of the rolls that were made.
    `hits` are the player's damage rolls and `blows` the enemy's, in the
    order they were made; one round is a hit followed, if the enemy
    survives it, by a blow. */
module Combat {

  /** Player and enemy health after playing the rounds in order, stopping at
      the first hit that brings the enemy to 0 or below or the first blow
      that brings the player to 0 or below. */
  function Play(health: int, foe: int, hits: seq<int>, blows: seq<int>): (r: (int, int))
    ensures NonNegative(hits) ==> r.1 <= foe
    ensures NonNegative(blows) ==> r.0 <= health
    decreases |hits|
  {
    if hits == [] then (health, foe)
    else if foe - hits[0] <= 0 || blows == [] then (health, foe - hits[0])
    else if health - blows[0] <= 0 then (health - blows[0], foe - hits[0])
    else Play(health - blows[0], foe - hits[0], hits[1..], blows[1..])
  }

  /** Every round of the rolls was played out in full and both sides are
      still standing after each one. */
  predicate Survives(health: int, foe: int, hits: seq<int>, blows: seq<int>)
    decreases |hits|
  {
    |hits| == |blows| &&
    (hits == [] ||
     (foe - hits[0] > 0 && health - blows[0] > 0 &&
      Survives(health - blows[0], foe - hits[0], hits[1..], blows[1..])))
  }

  /** The rolls are exactly those of a finished fight: every round but the
      last was survived by both, and the last ends with the enemy falling
      to the hit (no blow follows) or the player falling to the blow. */
  predicate Settles(health: int, foe: int, hits: seq<int>, blows: seq<int>)
    ensures Settles(health, foe, hits, blows) ==> |blows| <= |hits| <= |blows| + 1
    decreases |hits|
  {
    hits != [] &&
    if foe - hits[0] <= 0 then |hits| == 1 && blows == []
    else if blows == [] then false
    else if health - blows[0] <= 0 then |hits| == 1 && |blows| == 1
    else Settles(health - blows[0], foe - hits[0], hits[1..], blows[1..])
  }

  /** No roll is negative, so no roll heals. */
  predicate NonNegative(rolls: seq<int>)
  {
    forall i :: 0 <= i < |rolls| ==> rolls[i] >= 0
  }

  /** Every roll lies in [1, bound]. */
  predicate InRange(rolls: seq<int>, bound: int)
  {
    forall i :: 0 <= i < |rolls| ==> 1 <= rolls[i] <= bound
  }

  /** One more roll in range keeps the rolls in range. */
  lemma InRangeAppend(rolls: seq<int>, roll: int, bound: int)
    requires InRange(rolls, bound) && 1 <= roll <= bound
    ensures InRange(rolls + [roll], bound)
  {
  }

  /** After rounds that were all survived both sides are standing. */
  lemma {:induction false} SurvivesAlive(health: int, foe: int, hits: seq<int>, blows: seq<int>)
    requires Survives(health, foe, hits, blows) && hits != []
    ensures Play(health, foe, hits, blows).0 > 0 && Play(health, foe, hits, blows).1 > 0
    decreases |hits|
  {
    if |hits| > 1 {
      SurvivesAlive(health - blows[0], foe - hits[0], hits[1..], blows[1..]);
    }
  }

  /** One more round that both survive extends a survived prefix. */
  lemma {:induction false} SurvivesStep(health: int, foe: int, hits: seq<int>, blows: seq<int>, hit: int, blow: int)
    requires Survives(health, foe, hits, blows)
    requires Play(health, foe, hits, blows).1 - hit > 0
    requires Play(health, foe, hits, blows).0 - blow > 0
    ensures Survives(health, foe, hits + [hit], blows + [blow])
    ensures Play(health, foe, hits + [hit], blows + [blow])
         == (Play(health, foe, hits, blows).0 - blow, Play(health, foe, hits, blows).1 - hit)
    decreases |hits|
  {
    if hits != [] {
      assert (hits + [hit])[1..] == hits[1..] + [hit];
      assert (blows + [blow])[1..] == blows[1..] + [blow];
      if |hits| > 1 {
        SurvivesAlive(health - blows[0], foe - hits[0], hits[1..], blows[1..]);
      }
      SurvivesStep(health - blows[0], foe - hits[0], hits[1..], blows[1..], hit, blow);
    }
  }

  /** A hit that brings the enemy to 0 or below after a survived prefix
      finishes the fight, with no blow in reply. */
  lemma {:induction false} SettlesByHit(health: int, foe: int, hits: seq<int>, blows: seq<int>, hit: int)
    requires Survives(health, foe, hits, blows)
    requires Play(health, foe, hits, blows).1 - hit <= 0
    ensures Settles(health, foe, hits + [hit], blows)
    ensures Play(health, foe, hits + [hit], blows)
         == (Play(health, foe, hits, blows).0, Play(health, foe, hits, blows).1 - hit)
    decreases |hits|
  {
    if hits != [] {
      assert (hits + [hit])[1..] == hits[1..] + [hit];
      if |hits| > 1 {
        SurvivesAlive(health - blows[0], foe - hits[0], hits[1..], blows[1..]);
      }
      SettlesByHit(health - blows[0], foe - hits[0], hits[1..], blows[1..], hit);
    }
  }

  /** A hit the enemy survives followed by a blow that brings the player to
      0 or below, after a survived prefix, finishes the fight. */
  lemma {:induction false} SettlesByBlow(health: int, foe: int, hits: seq<int>, blows: seq<int>, hit: int, blow: int)
    requires Survives(health, foe, hits, blows)
    requires Play(health, foe, hits, blows).1 - hit > 0
    requires Play(health, foe, hits, blows).0 - blow <= 0
    ensures Settles(health, foe, hits + [hit], blows + [blow])
    ensures Play(health, foe, hits + [hit], blows + [blow])
         == (Play(health, foe, hits, blows).0 - blow, Play(health, foe, hits, blows).1 - hit)
    decreases |hits|
  {
    if hits != [] {
      assert (hits + [hit])[1..] == hits[1..] + [hit];
      assert (blows + [blow])[1..] == blows[1..] + [blow];
      if |hits| > 1 {
        SurvivesAlive(health - blows[0], foe - hits[0], hits[1..], blows[1..]);
      }
      SettlesByBlow(health - blows[0], foe - hits[0], hits[1..], blows[1..], hit, blow);
    }
  }

  /** A finished fight ends in exactly one of two ways: the enemy is at 0 or
      below, the last hit had no blow in reply and a player who entered alive
      is still alive; or the player is at 0 or below, every hit had its blow
      and the enemy is still standing. */
  lemma {:induction false} SettlesOutcome(health: int, foe: int, hits: seq<int>, blows: seq<int>)
    requires Settles(health, foe, hits, blows)
    ensures var (h, e) := Play(health, foe, hits, blows);
      (e <= 0 && |blows| + 1 == |hits| && h == health - Sum(blows) && (health > 0 ==> h > 0)) ||
      (e > 0 && h <= 0 && |blows| == |hits| && h == health - Sum(blows))
    decreases |hits|
  {
    if foe - hits[0] > 0 && health - blows[0] > 0 {
      SettlesOutcome(health - blows[0], foe - hits[0], hits[1..], blows[1..]);
      assert Sum(blows) == blows[0] + Sum(blows[1..]);
    } else if foe - hits[0] > 0 {
      assert Sum(blows) == blows[0] + Sum(blows[1..]);
    }
  }

  /** The total of the rolls. */
  function Sum(rolls: seq<int>): int
  {
    if rolls == [] then 0 else rolls[0] + Sum(rolls[1..])
  }

  /** The termination argument: every hit takes at least 1 from the enemy,
      so a finished fight against an enemy with health `foe` has at most
      `foe` rounds, and the enemy's remaining health is its starting health
      less the total damage dealt. */
  lemma {:induction false} SettlesWithin(health: int, foe: int, hits: seq<int>, blows: seq<int>, power: int)
    requires Settles(health, foe, hits, blows) && InRange(hits, power) && foe > 0
    ensures |hits| <= foe
    ensures Play(health, foe, hits, blows).1 == foe - Sum(hits)
    decreases |hits|
  {
    if foe - hits[0] > 0 && health - blows[0] > 0 {
      assert InRange(hits[1..], power) by {
        forall i | 0 <= i < |hits[1..]| ensures 1 <= hits[1..][i] <= power {
          assert hits[1..][i] == hits[i + 1];
        }
      }
      SettlesWithin(health - blows[0], foe - hits[0], hits[1..], blows[1..], power);
    }
  }

  /** `k` copies of `v`. */
  function Repeat(v: int, k: nat): (r: seq<int>)
    ensures |r| == k && forall i :: 0 <= i < k ==> r[i] == v
  {
    seq(k, _ => v)
  }

  /** With every hit fixed at `p` and every blow at `b`, `k` rounds that leave
      both standing take `p * k` from the enemy and `b * k` from the player. */
  lemma {:induction false} SteadyRounds(health: int, foe: int, p: int, b: int, k: nat)
    requires p >= 0 && b >= 0
    requires foe - p * k > 0 && health - b * k > 0
    ensures Survives(health, foe, Repeat(p, k), Repeat(b, k))
    ensures Play(health, foe, Repeat(p, k), Repeat(b, k)) == (health - b * k, foe - p * k)
  {
    if k > 0 {
      var hits, blows := Repeat(p, k), Repeat(b, k);
      assert hits[0] == p && blows[0] == b;
      assert hits[1..] == Repeat(p, k - 1);
      assert blows[1..] == Repeat(b, k - 1);
      MulStep(p, k);
      MulStep(b, k);
      SteadyRounds(health - b, foe - p, p, b, k - 1);
    }
  }

  /** One factor less by one takes the other factor off the product. */
  lemma MulStep(p: int, k: int)
    ensures p * k == p * (k - 1) + p
  {
  }

  /** ceil(foe / p) hits of `p` are the fewest that bring `foe` to 0 or below. */
  lemma CeilHits(foe: int, p: int)
    requires p >= 1 && foe > 0
    ensures (foe + p - 1) / p >= 1
    ensures p * ((foe + p - 1) / p - 1) < foe <= p * ((foe + p - 1) / p)
  {
    var k := (foe + p - 1) / p;
    var r := (foe + p - 1) % p;
    assert foe + p - 1 == k * p + r && 0 <= r < p;
    assert p * (k - 1) == p * k - p;
  }

  /** `k` hits of `p` against blows of `b`, where the first `k - 1` hits
      leave the enemy standing and the `k`-th fells it, settle the fight if
      the player survives the `k - 1` blows on the way. */
  lemma SteadyFinish(health: int, foe: int, p: int, b: int, k: nat)
    requires p >= 1 && b >= 0 && k >= 1
    requires p * (k - 1) < foe <= p * k
    requires health - b * (k - 1) > 0
    ensures Settles(health, foe, Repeat(p, k), Repeat(b, k - 1))
    ensures Play(health, foe, Repeat(p, k), Repeat(b, k - 1)) == (health - b * (k - 1), foe - p * k)
  {
    MulStep(p, k);
    SteadyRounds(health, foe, p, b, k - 1);
    SettlesByHit(health, foe, Repeat(p, k - 1), Repeat(b, k - 1), p);
    assert Repeat(p, k - 1) + [p] == Repeat(p, k);
  }

  /** With every hit fixed at the maximum `p` and every blow at `b`, a player
      who survives the blows on the way wins against an enemy of health
      `foe` with exactly ceil(foe / p) hits. */
  lemma SteadyWin(health: int, foe: int, p: int, b: int)
    requires p >= 1 && b >= 0 && foe > 0
    requires health - b * ((foe + p - 1) / p - 1) > 0
    ensures var k := (foe + p - 1) / p;
      k >= 1 &&
      Settles(health, foe, Repeat(p, k), Repeat(b, k - 1)) &&
      Play(health, foe, Repeat(p, k), Repeat(b, k - 1)) == (health - b * (k - 1), foe - p * k)
  {
    CeilHits(foe, p);
    SteadyFinish(health, foe, p, b, (foe + p - 1) / p);
  }
}
