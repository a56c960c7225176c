// The member layout of a replicated volume and the quorum it keeps (api/v1alpha1/rv_types.go; the
// voting rule is stated on the replica types of api/v1alpha1/rvr_types.go). Members are any values.
module Quorum {

  type UInt8 = b: int | 0 <= b < 256

  /** failuresToTolerate and guaranteedMinimumDataRedundancy of a volume configuration. */
  datatype Configuration = Configuration(ftt: UInt8, gmdr: UInt8)

  function IntendedDiskfulCount(ftt: UInt8, gmdr: UInt8): int { ftt + gmdr + 1 }

  function TieBreakersForDiskful(diskful: int, ftt: int): int {
    if diskful > 0 && diskful % 2 == 0 && ftt == diskful / 2 then 1 else 0
  }

  function IntendedLayout(c: Configuration): (int, int) {
    var diskful := IntendedDiskfulCount(c.ftt, c.gmdr);
    (diskful, TieBreakersForDiskful(diskful, c.ftt))
  }

  /** Byte arithmetic: 255 wraps to 0. */
  function QuorumMinimumRedundancy(c: Configuration): UInt8 { (c.gmdr + 1) % 256 }

  // ---------------------------------------------------------------------------
  // Voting
  // ---------------------------------------------------------------------------

  datatype Members<!T> = Members(voters: set<T>, tieBreakers: set<T>)

  ghost predicate HasLayout<T>(m: Members<T>, c: Configuration) {
    m.voters !! m.tieBreakers && (|m.voters|, |m.tieBreakers|) == IntendedLayout(c)
  }

  ghost function All<T>(m: Members<T>): set<T> { m.voters + m.tieBreakers }

  ghost predicate Majority<T>(voters: set<T>, group: set<T>) { 2 * |voters * group| > |voters| }

  /**
   * A strict majority of the voters; or, only to maintain quorum that is held, exactly half of them
   * with a majority of the tie-breakers.
   */
  ghost predicate HasQuorum<T>(m: Members<T>, held: bool, group: set<T>) {
    || Majority(m.voters, group)
    || (held && 2 * |m.voters * group| == |m.voters| && Majority(m.tieBreakers, group))
  }

  lemma SubsetSize<T>(a: set<T>, b: set<T>)
    requires a <= b
    ensures |a| <= |b|
  {
    assert |b - a| == |b| - |a|;
  }

  lemma SplitSize<T>(a: set<T>, b: set<T>)
    ensures |a * b| + |a - b| == |a|
  {
    assert a == a * b + (a - b);
  }

  /** Two groups without a common member share out the votes between them. */
  lemma DisjointVotes<T>(a: set<T>, g: set<T>, h: set<T>)
    requires g !! h
    ensures |a * g| + |a * h| <= |a|
  {
    SplitSize(a, g);
    SubsetSize(a * h, a - g);
  }

  /** No partition of the members, of whatever layout, gives quorum to both sides. */
  lemma NoSplitBrain<T>(m: Members<T>, g: set<T>, heldByG: bool, h: set<T>, heldByH: bool)
    requires g !! h
    ensures !(HasQuorum(m, heldByG, g) && HasQuorum(m, heldByH, h))
  {
    DisjointVotes(m.voters, g, h);
    DisjointVotes(m.tieBreakers, g, h);
  }

  /** More reachable members never lose quorum. */
  lemma QuorumGrows<T>(m: Members<T>, held: bool, g: set<T>, h: set<T>)
    requires g <= h && HasQuorum(m, held, g)
    ensures HasQuorum(m, held, h)
  {
    SubsetSize(m.voters * g, m.voters * h);
    SubsetSize(m.tieBreakers * g, m.tieBreakers * h);
  }

  /** A set has subsets of every smaller size. */
  lemma {:induction false} SubsetOfSize<T>(s: set<T>, n: nat) returns (t: set<T>)
    requires n <= |s|
    ensures t <= s && |t| == n
    decreases n
  {
    if n == 0 {
      t := {};
    } else {
      var x :| x in s;
      var u := SubsetOfSize(s - {x}, n - 1);
      t := u + {x};
    }
  }

  // ---------------------------------------------------------------------------
  // What the layout guarantees
  // ---------------------------------------------------------------------------

  /** Losing up to FTT members, tie-breaker included, leaves at least GMDR + 1 voters. */
  lemma VotersRemain<T>(m: Members<T>, c: Configuration, lost: set<T>)
    requires HasLayout(m, c) && |lost| <= c.ftt
    ensures |m.voters - lost| >= c.gmdr + 1
    ensures c.gmdr < 255 ==> |m.voters - lost| >= QuorumMinimumRedundancy(c)
  {
    SplitSize(m.voters, lost);
    SubsetSize(m.voters * lost, lost);
  }

  /** GMDR + 1 is the redundancy that is left at worst, so qmr is it unless the byte wraps. */
  lemma RedundancyIsMinimum<T>(m: Members<T>, c: Configuration) returns (worst: set<T>)
    requires HasLayout(m, c)
    ensures worst <= m.voters && |worst| == c.ftt && |m.voters - worst| == c.gmdr + 1
    ensures |m.voters - worst| == QuorumMinimumRedundancy(c) <==> c.gmdr < 255
  {
    worst := SubsetOfSize(m.voters, c.ftt);
    VotersAfter(m, worst);
    assert m.voters * (m.voters - worst) == m.voters - worst;
  }

  ghost predicate Survives<T>(m: Members<T>, lost: set<T>) { HasQuorum(m, true, All(m) - lost) }

  lemma RemainingVotes<T>(m: Members<T>, lost: set<T>)
    requires m.voters !! m.tieBreakers
    ensures m.voters * (All(m) - lost) == m.voters - lost
    ensures m.tieBreakers * (All(m) - lost) == m.tieBreakers - lost
    ensures |m.voters - lost| + |m.voters * lost| == |m.voters|
    ensures |m.tieBreakers - lost| + |m.tieBreakers * lost| == |m.tieBreakers|
    ensures |m.voters * lost| + |m.tieBreakers * lost| <= |lost|
  {
    SplitSize(m.voters, lost);
    SplitSize(m.tieBreakers, lost);
    assert (m.voters * lost) !! (m.tieBreakers * lost);
    SubsetSize(m.voters * lost + m.tieBreakers * lost, lost);
  }

  /** With FTT at most one above GMDR, any loss of up to FTT members keeps quorum. */
  lemma LossKeepsQuorum<T>(m: Members<T>, c: Configuration, lost: set<T>)
    requires HasLayout(m, c) && c.ftt <= c.gmdr + 1 && |lost| <= c.ftt
    ensures Survives(m, lost)
  {
    RemainingVotes(m, lost);
  }

  /** Otherwise losing FTT of the voters loses quorum. */
  lemma LossLosesQuorum<T>(m: Members<T>, c: Configuration, lost: set<T>)
    requires HasLayout(m, c) && c.ftt > c.gmdr + 1 && lost <= m.voters && |lost| == c.ftt
    ensures !Survives(m, lost)
  {
    RemainingVotes(m, lost);
    assert m.voters * lost == lost;
  }

  /** The layout keeps its promise for every loss iff FTT does not exceed GMDR by two or more. */
  lemma ToleratesIff<T>(m: Members<T>, c: Configuration)
    requires HasLayout(m, c)
    ensures (forall lost: set<T> :: lost <= All(m) && |lost| <= c.ftt ==> Survives(m, lost)) <==> c.ftt <= c.gmdr + 1
  {
    if c.ftt <= c.gmdr + 1 {
      forall lost: set<T> | lost <= All(m) && |lost| <= c.ftt
        ensures Survives(m, lost)
      {
        LossKeepsQuorum(m, c, lost);
      }
    } else {
      var lost := SubsetOfSize(m.voters, c.ftt);
      LossLosesQuorum(m, c, lost);
      assert lost <= All(m);
    }
  }

  /** Quorum after each of a run of outages, starting from all members being reachable. */
  ghost predicate HeldThroughout<T>(m: Members<T>, outages: seq<set<T>>) {
    if outages == [] then HasQuorum(m, false, All(m))
    else
      var n := |outages| - 1;
      HeldThroughout(m, outages[..n]) && HasQuorum(m, HeldThroughout(m, outages[..n]), All(m) - outages[n])
  }

  /** Whatever fails and comes back, with at most FTT members away at a time quorum is never lost. */
  lemma {:induction false} OutagesKeepQuorum<T>(m: Members<T>, c: Configuration, outages: seq<set<T>>)
    requires HasLayout(m, c) && c.ftt <= c.gmdr + 1
    requires forall i :: 0 <= i < |outages| ==> |outages[i]| <= c.ftt
    ensures HeldThroughout(m, outages)
  {
    if outages == [] {
      assert m.voters * All(m) == m.voters;
    } else {
      var n := |outages| - 1;
      OutagesKeepQuorum(m, c, outages[..n]);
      LossKeepsQuorum(m, c, outages[n]);
    }
  }

  ghost predicate LosesMajority<T>(m: Members<T>, lost: set<T>) { !Majority(m.voters, m.voters - lost) }

  /** One tie-breaker is assigned if without it some loss of FTT voters would lose the majority, else none. */
  lemma TieBreakerIffNeeded<T>(m: Members<T>, c: Configuration)
    requires HasLayout(m, c) && c.ftt <= c.gmdr + 1
    ensures |m.tieBreakers| <= 1
    ensures m.tieBreakers != {}
       <==> exists lost: set<T> :: lost <= m.voters && |lost| == c.ftt && LosesMajority(m, lost)
  {
    var lost := SubsetOfSize(m.voters, c.ftt);
    VotersAfter(m, lost);
    if m.tieBreakers != {} {
      assert |m.tieBreakers| == 1 by { NotEmpty(m.tieBreakers); }
      assert LosesMajority(m, lost);
    } else {
      forall l: set<T> | l <= m.voters && |l| == c.ftt
        ensures !LosesMajority(m, l)
      {
        VotersAfter(m, l);
      }
    }
  }

  lemma NotEmpty<T>(s: set<T>)
    requires s != {}
    ensures |s| > 0
  {
    var x :| x in s;
    SubsetSize({x}, s);
  }

  lemma VotersAfter<T>(m: Members<T>, lost: set<T>)
    requires lost <= m.voters
    ensures |m.voters * (m.voters - lost)| == |m.voters| - |lost|
  {
    SplitSize(m.voters, lost);
    assert m.voters * lost == lost && m.voters * (m.voters - lost) == m.voters - lost;
  }
}
