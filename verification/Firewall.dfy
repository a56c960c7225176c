// Blocking replication links in a node's firewall and lifting the blockade by its tag
// (e2e/pkg/framework/drbd_link_block.go). How the firewall lists a rule is the parameter `list`,
// how its other rules judge a packet is `judge`; nobody else edits the chains meanwhile.
module Firewall {
  import opened Text

  const DELETE_LOOP := 200

  datatype Link = Link(localIP: string, localPort: nat, remoteIP: string, remotePort: nat)

  datatype Rule =
    | Drop(src: string, dst: string, ports: seq<nat>, comment: string)
    | Other(id: int)

  datatype Direction = Input | Output

  // ---------------------------------------------------------------------------
  // Rules of a link
  // ---------------------------------------------------------------------------

  /** The multiport list: a port matches as source or as destination. */
  function Ports(l: Link): seq<nat> {
    if l.localPort == l.remotePort then [l.localPort] else [l.localPort, l.remotePort]
  }

  function RuleFor(tag: string, d: Direction, l: Link): Rule {
    if d.Output? then Drop(l.localIP, l.remoteIP, Ports(l), tag) else Drop(l.remoteIP, l.localIP, Ports(l), tag)
  }

  /** Each rule is inserted at the head of the chain. */
  function Insert(tag: string, d: Direction, links: seq<Link>, chain: seq<Rule>): seq<Rule> {
    if links == [] then chain
    else [RuleFor(tag, d, links[|links| - 1])] + Insert(tag, d, links[..|links| - 1], chain)
  }

  // ---------------------------------------------------------------------------
  // Packets
  // ---------------------------------------------------------------------------

  datatype Packet = Packet(src: string, srcPort: nat, dst: string, dstPort: nat)

  datatype Verdict = Accepted | Dropped

  predicate Hits(r: Rule, p: Packet)
    requires r.Drop?
  {
    p.src == r.src && p.dst == r.dst && (p.srcPort in r.ports || p.dstPort in r.ports)
  }

  /** The first rule that has an opinion decides; the chain's policy is to accept. */
  function Judged(judge: (Rule, Packet) -> Option<Verdict>, chain: seq<Rule>, p: Packet): Verdict {
    if chain == [] then Accepted
    else
      var r := chain[0];
      var v := if r.Drop? then (if Hits(r, p) then Some(Dropped) else None) else judge(r, p);
      if v.Some? then v.value else Judged(judge, chain[1..], p)
  }

  /** A packet of a connection between the link's endpoints; `dialled` is the port its caller took. */
  predicate Belongs(l: Link, d: Direction, p: Packet, dialled: nat) {
    match d
    case Input =>
      || p == Packet(l.remoteIP, l.remotePort, l.localIP, dialled)
      || p == Packet(l.remoteIP, dialled, l.localIP, l.localPort)
    case Output =>
      || p == Packet(l.localIP, dialled, l.remoteIP, l.remotePort)
      || p == Packet(l.localIP, l.localPort, l.remoteIP, dialled)
  }

  ghost predicate HitsSome(tag: string, d: Direction, links: seq<Link>, p: Packet) {
    exists i :: 0 <= i < |links| && Hits(RuleFor(tag, d, links[i]), p)
  }

  /** While in place the rules decide exactly the packets they name; all others are judged as before. */
  lemma {:induction false} InsertedVerdict(judge: (Rule, Packet) -> Option<Verdict>, tag: string, d: Direction,
                                           links: seq<Link>, chain: seq<Rule>, p: Packet)
    ensures Judged(judge, Insert(tag, d, links, chain), p)
         == if HitsSome(tag, d, links, p) then Dropped else Judged(judge, chain, p)
  {
    hide Hits, RuleFor;
    if links != [] {
      var n := |links| - 1;
      var rest := Insert(tag, d, links[..n], chain);
      InsertedVerdict(judge, tag, d, links[..n], chain, p);
      RuleIsDrop(tag, d, links[n]);
      assert ([RuleFor(tag, d, links[n])] + rest)[1..] == rest;
      assert forall i :: 0 <= i < n ==> links[..n][i] == links[i];
      HitsStep(tag, d, links, p);
    }
  }

  lemma RuleIsDrop(tag: string, d: Direction, l: Link)
    ensures RuleFor(tag, d, l).Drop? && RuleFor(tag, d, l).comment == tag
  {
  }

  lemma HitsStep(tag: string, d: Direction, links: seq<Link>, p: Packet)
    requires links != []
    ensures HitsSome(tag, d, links, p)
       <==> HitsSome(tag, d, links[..|links| - 1], p) || Hits(RuleFor(tag, d, links[|links| - 1]), p)
  {
    hide Hits;
    var n := |links| - 1;
    var s := links[..n];
    if HitsSome(tag, d, s, p) {
      var i :| 0 <= i < |s| && Hits(RuleFor(tag, d, s[i]), p);
      assert links[i] == s[i];
    }
    if HitsSome(tag, d, links, p) {
      var i :| 0 <= i < |links| && Hits(RuleFor(tag, d, links[i]), p);
      assert i < n ==> s[i] == links[i];
    }
  }

  /** Both packet directions of a blocked link are dropped, whichever side dialled. */
  lemma BlocksBothDirections(judge: (Rule, Packet) -> Option<Verdict>, tag: string, d: Direction,
                             links: seq<Link>, chain: seq<Rule>, i: nat, p: Packet, dialled: nat)
    requires i < |links| && Belongs(links[i], d, p, dialled)
    ensures Judged(judge, Insert(tag, d, links, chain), p) == Dropped
  {
    hide Insert, Judged;
    assert Hits(RuleFor(tag, d, links[i]), p);
    InsertedVerdict(judge, tag, d, links, chain, p);
  }

  /** Traffic that names neither endpoint port, or is between other hosts, is judged as before. */
  lemma SparesTheRest(judge: (Rule, Packet) -> Option<Verdict>, tag: string, d: Direction,
                      links: seq<Link>, chain: seq<Rule>, p: Packet)
    requires forall i :: 0 <= i < |links| ==>
               var l := links[i];
               || {p.src, p.dst} != {l.localIP, l.remoteIP}
               || {p.srcPort, p.dstPort} !! {l.localPort, l.remotePort}
    ensures Judged(judge, Insert(tag, d, links, chain), p) == Judged(judge, chain, p)
  {
    hide Insert, Judged;
    InsertedVerdict(judge, tag, d, links, chain, p);
    forall i | 0 <= i < |links|
      ensures !Hits(RuleFor(tag, d, links[i]), p)
    {
      Misses(tag, d, links[i], p);
    }
  }

  lemma Misses(tag: string, d: Direction, l: Link, p: Packet)
    requires {p.src, p.dst} != {l.localIP, l.remoteIP} || {p.srcPort, p.dstPort} !! {l.localPort, l.remotePort}
    ensures !Hits(RuleFor(tag, d, l), p)
  {
    if {p.srcPort, p.dstPort} !! {l.localPort, l.remotePort} {
      assert p.srcPort in {p.srcPort, p.dstPort} && p.dstPort in {p.srcPort, p.dstPort};
      assert p.srcPort !in {l.localPort, l.remotePort} && p.dstPort !in {l.localPort, l.remotePort};
    }
  }

  // ---------------------------------------------------------------------------
  // Removal by tag
  // ---------------------------------------------------------------------------

  /** `t` occurs in `s`, as grep -F looks for it. */
  predicate Contains(s: string, t: string) { t <= s || (s != [] && Contains(s[1..], t)) }

  lemma {:induction false} ContainsIff(s: string, t: string)
    ensures Contains(s, t) <==> exists p, q :: s == p + t + q
  {
    if t <= s {
      assert s == [] + t + s[|t|..];
    } else if s != [] {
      ContainsIff(s[1..], t);
      if Contains(s[1..], t) {
        var p, q :| s[1..] == p + t + q;
        assert s == [s[0]] + p + t + q;
      }
      if p, q :| s == p + t + q {
        LaterOccurrence(s, t, p, q);
      }
    }
  }

  lemma LaterOccurrence(s: string, t: string, p: string, q: string)
    requires s == p + t + q && !(t <= s)
    ensures p != [] && s[1..] == p[1..] + t + q
  {
    assert s[|p|..|p| + |t|] == t;
  }

  /** The listing shows the comment of a rule. */
  ghost predicate ListsComments(list: Rule -> string) {
    forall r: Rule :: r.Drop? ==> Contains(list(r), r.comment)
  }

  /** The listed line of the rule contains the tag. */
  predicate Tagged(list: Rule -> string, tag: string, r: Rule) { Contains(list(r), tag) }

  function TaggedCount(list: Rule -> string, tag: string, chain: seq<Rule>): (n: nat)
    ensures n <= |chain|
  {
    if chain == [] then 0
    else (if Tagged(list, tag, chain[0]) then 1 else 0) + TaggedCount(list, tag, chain[1..])
  }

  /** The chain without its first `budget` tagged rules. */
  function Sweep(list: Rule -> string, tag: string, chain: seq<Rule>, budget: nat): seq<Rule> {
    if chain == [] || budget == 0 then chain
    else if Tagged(list, tag, chain[0]) then Sweep(list, tag, chain[1..], budget - 1)
    else [chain[0]] + Sweep(list, tag, chain[1..], budget)
  }

  lemma {:induction false} SweepCounts(list: Rule -> string, tag: string, chain: seq<Rule>, budget: nat)
    ensures var n := TaggedCount(list, tag, chain);
            && TaggedCount(list, tag, Sweep(list, tag, chain, budget)) == (if n <= budget then 0 else n - budget)
            && |Sweep(list, tag, chain, budget)| == |chain| - (if n <= budget then n else budget)
  {
    if chain != [] && budget > 0 {
      var budget' := if Tagged(list, tag, chain[0]) then budget - 1 else budget;
      SweepCounts(list, tag, chain[1..], budget');
      assert ([chain[0]] + Sweep(list, tag, chain[1..], budget'))[1..] == Sweep(list, tag, chain[1..], budget');
    }
  }

  lemma {:induction false} SweepNothing(list: Rule -> string, tag: string, chain: seq<Rule>, budget: nat)
    requires TaggedCount(list, tag, chain) == 0
    ensures Sweep(list, tag, chain, budget) == chain
  {
    if chain != [] && budget > 0 {
      SweepNothing(list, tag, chain[1..], budget);
      assert chain == [chain[0]] + chain[1..];
    }
  }

  /** Inserted rules are at the head, so the sweep meets them first. */
  lemma {:induction false} SweepInserted(list: Rule -> string, tag: string, d: Direction, links: seq<Link>,
                                         chain: seq<Rule>, budget: nat)
    requires ListsComments(list) && |links| <= budget
    ensures Sweep(list, tag, Insert(tag, d, links, chain), budget) == Sweep(list, tag, chain, budget - |links|)
  {
    hide Tagged, RuleFor;
    if links != [] {
      var n := |links| - 1;
      var rest := Insert(tag, d, links[..n], chain);
      InsertedTagged(list, tag, d, links[n]);
      assert ([RuleFor(tag, d, links[n])] + rest)[1..] == rest;
      SweepInserted(list, tag, d, links[..n], chain, budget - 1);
    }
  }

  lemma InsertedTagged(list: Rule -> string, tag: string, d: Direction, l: Link)
    requires ListsComments(list)
    ensures Tagged(list, tag, RuleFor(tag, d, l))
  {
    hide Contains;
    RuleIsDrop(tag, d, l);
  }

  lemma {:induction false} InsertCounts(list: Rule -> string, tag: string, d: Direction, links: seq<Link>,
                                        chain: seq<Rule>)
    requires ListsComments(list)
    ensures TaggedCount(list, tag, Insert(tag, d, links, chain)) == |links| + TaggedCount(list, tag, chain)
    ensures |Insert(tag, d, links, chain)| == |links| + |chain|
  {
    hide Tagged, RuleFor;
    if links != [] {
      var n := |links| - 1;
      var rest := Insert(tag, d, links[..n], chain);
      InsertedTagged(list, tag, d, links[n]);
      assert ([RuleFor(tag, d, links[n])] + rest)[1..] == rest;
      InsertCounts(list, tag, d, links[..n], chain);
    }
  }

  /**
   * Inserting and removing gives the chain back iff the loop bound is used up by the links exactly,
   * or is not reached and no other rule of the chain shows the tag.
   */
  lemma RestoresIff(list: Rule -> string, tag: string, d: Direction, links: seq<Link>, chain: seq<Rule>)
    requires ListsComments(list)
    ensures Sweep(list, tag, Insert(tag, d, links, chain), 200) == chain
       <==> |links| == 200 || (|links| < 200 && TaggedCount(list, tag, chain) == 0)
  {
    hide Sweep, Insert, TaggedCount, ListsComments;
    SweepCounts(list, tag, Insert(tag, d, links, chain), DELETE_LOOP);
    InsertCounts(list, tag, d, links, chain);
    if |links| <= DELETE_LOOP {
      SweepInserted(list, tag, d, links, chain, DELETE_LOOP);
      SweepCounts(list, tag, chain, DELETE_LOOP - |links|);
      if TaggedCount(list, tag, chain) == 0 {
        SweepNothing(list, tag, chain, DELETE_LOOP - |links|);
      } else if |links| == DELETE_LOOP {
        SweepNoBudget(list, tag, chain);
      }
    }
  }

  lemma SweepNoBudget(list: Rule -> string, tag: string, chain: seq<Rule>)
    ensures Sweep(list, tag, chain, 0) == chain
  {
  }

  /** On a chain without the tag, up to 200 links are taken down without a trace. */
  lemma Restores(list: Rule -> string, tag: string, d: Direction, links: seq<Link>, chain: seq<Rule>)
    requires ListsComments(list) && |links| <= 200 && TaggedCount(list, tag, chain) == 0
    ensures Sweep(list, tag, Insert(tag, d, links, chain), 200) == chain
    ensures TaggedCount(list, tag, Insert(tag, d, links, chain)) == |links|
  {
    hide Sweep, Insert, TaggedCount, ListsComments;
    RestoresIff(list, tag, d, links, chain);
    InsertCounts(list, tag, d, links, chain);
  }

  // ---------------------------------------------------------------------------
  // The node and the blockade
  // ---------------------------------------------------------------------------

  /** The number, from 1, of the first listed line with the tag; 0 when there is none. */
  method FirstTagged(list: Rule -> string, tag: string, chain: seq<Rule>) returns (n: nat)
    ensures n <= |chain| && (n > 0 ==> Tagged(list, tag, chain[n - 1]))
    ensures forall i :: 0 <= i < |chain| && (n == 0 || i < n - 1) ==> !Tagged(list, tag, chain[i])
  {
    hide Tagged;
    for i := 0 to |chain|
      invariant forall k :: 0 <= k < i ==> !Tagged(list, tag, chain[k])
    {
      if Tagged(list, tag, chain[i]) {
        return i + 1;
      }
    }
    return 0;
  }

  lemma {:induction false} SweepStep(list: Rule -> string, tag: string, chain: seq<Rule>, n: nat, budget: nat)
    requires n < |chain| && Tagged(list, tag, chain[n]) && budget > 0
    requires forall i :: 0 <= i < n ==> !Tagged(list, tag, chain[i])
    ensures Sweep(list, tag, chain, budget) == Sweep(list, tag, chain[..n] + chain[n + 1..], budget - 1)
    decreases n
  {
    hide Tagged;
    if n == 0 {
      assert chain[..n] + chain[n + 1..] == chain[1..];
    } else {
      var t := chain[1..];
      SweepStep(list, tag, t, n - 1, budget);
      var u := chain[..n] + chain[n + 1..];
      assert u[0] == chain[0] && u[1..] == t[..n - 1] + t[n..];
      if budget == 1 {
        SweepNoBudget(list, tag, u);
        SweepNoBudget(list, tag, u[1..]);
        assert u == [u[0]] + u[1..];
      }
    }
  }

  lemma {:induction false} NoneTagged(list: Rule -> string, tag: string, chain: seq<Rule>)
    requires forall i :: 0 <= i < |chain| ==> !Tagged(list, tag, chain[i])
    ensures TaggedCount(list, tag, chain) == 0
  {
    if chain != [] {
      NoneTagged(list, tag, chain[1..]);
    }
  }

  /** The bounded loop that deletes the first tagged line until none is listed. */
  method DeleteTagged(list: Rule -> string, tag: string, before: seq<Rule>) returns (chain: seq<Rule>)
    ensures chain == Sweep(list, tag, before, 200)
  {
    hide Tagged, Sweep, TaggedCount;
    chain := before;
    var i := 0;
    while i < DELETE_LOOP
      invariant i <= DELETE_LOOP
      invariant Sweep(list, tag, before, DELETE_LOOP) == Sweep(list, tag, chain, DELETE_LOOP - i)
    {
      var n := FirstTagged(list, tag, chain);
      if n == 0 {
        NoneTagged(list, tag, chain);
        SweepNothing(list, tag, chain, DELETE_LOOP - i);
        return;
      }
      SweepStep(list, tag, chain, n - 1, DELETE_LOOP - i);
      chain := chain[..n - 1] + chain[n..];
      i := i + 1;
    }
    SweepNoBudget(list, tag, chain);
  }

  method CountTagged(list: Rule -> string, tag: string, chain: seq<Rule>) returns (n: nat)
    ensures n == TaggedCount(list, tag, chain)
  {
    hide Tagged;
    n := 0;
    assert chain[0..] == chain;
    for i := 0 to |chain|
      invariant TaggedCount(list, tag, chain) == n + TaggedCount(list, tag, chain[i..])
    {
      assert chain[i..][1..] == chain[i + 1..];
      if Tagged(list, tag, chain[i]) {
        n := n + 1;
      }
    }
  }

  class Node {
    var input: seq<Rule>
    var output: seq<Rule>

    constructor (input: seq<Rule>, output: seq<Rule>)
      ensures this.input == input && this.output == output
    {
      this.input, this.output := input, output;
    }

    /** The count both scripts end with. */
    ghost function TaggedRules(list: Rule -> string, tag: string): nat
      reads this
    {
      TaggedCount(list, tag, input) + TaggedCount(list, tag, output)
    }

    method InsertScript(list: Rule -> string, tag: string, links: seq<Link>) returns (count: nat)
      modifies this
      ensures input == Insert(tag, Input, links, old(input))
      ensures output == Insert(tag, Output, links, old(output))
      ensures count == TaggedRules(list, tag)
    {
      hide TaggedCount, RuleFor;
      for i := 0 to |links|
        invariant input == Insert(tag, Input, links[..i], old(input))
        invariant output == Insert(tag, Output, links[..i], old(output))
      {
        assert links[..i + 1][..i] == links[..i];
        input := [RuleFor(tag, Input, links[i])] + input;
        output := [RuleFor(tag, Output, links[i])] + output;
      }
      assert links[..|links|] == links;
      var a := CountTagged(list, tag, input);
      var b := CountTagged(list, tag, output);
      count := a + b;
    }

    method RemoveScript(list: Rule -> string, tag: string) returns (count: nat)
      modifies this
      ensures input == Sweep(list, tag, old(input), 200)
      ensures output == Sweep(list, tag, old(output), 200)
      ensures count == TaggedRules(list, tag)
    {
      hide TaggedCount, Sweep;
      var i := DeleteTagged(list, tag, input);
      var o := DeleteTagged(list, tag, output);
      input, output := i, o;
      var a := CountTagged(list, tag, input);
      var b := CountTagged(list, tag, output);
      count := a + b;
    }
  }

  class Blockade {
    const node: Node
    const tag: string
    const links: seq<Link>
    var removed: bool

    constructor (node: Node, tag: string, links: seq<Link>)
      ensures this.node == node && this.tag == tag && this.links == links && !removed
    {
      this.node, this.tag, this.links, this.removed := node, tag, links, false;
    }

    /** Reports success iff the node shows two rules per link, that is no other rule with the tag. */
    method Apply(list: Rule -> string) returns (ok: bool)
      requires ListsComments(list)
      modifies node
      ensures node.input == Insert(tag, Input, links, old(node.input))
      ensures node.output == Insert(tag, Output, links, old(node.output))
      ensures ok <==> old(node.TaggedRules(list, tag)) == 0
    {
      hide TaggedCount, Insert, ListsComments;
      InsertCounts(list, tag, Input, links, node.input);
      InsertCounts(list, tag, Output, links, node.output);
      var want := |links| * 2;
      var got := node.InsertScript(list, tag, links);
      ok := got == want;
    }

    /** Done once; a removal that leaves tagged rules behind is not remembered. */
    method Remove(list: Rule -> string) returns (ok: bool)
      modifies node, this`removed
      ensures old(removed) ==> ok && removed && node.input == old(node.input) && node.output == old(node.output)
      ensures !old(removed) ==>
                && node.input == Sweep(list, tag, old(node.input), 200)
                && node.output == Sweep(list, tag, old(node.output), 200)
                && (ok <==> node.TaggedRules(list, tag) == 0) && removed == ok
    {
      hide TaggedCount, Sweep;
      if removed {
        return true;
      }
      var left := node.RemoveScript(list, tag);
      if left != 0 {
        return false;
      }
      removed := true;
      return true;
    }
  }

  /** A blockade of up to 200 links on a node without the tag comes down and leaves no trace. */
  method BlockAndRelease(list: Rule -> string, b: Blockade) returns (applied: bool, released: bool)
    requires ListsComments(list) && !b.removed && |b.links| <= 200
    requires b.node.TaggedRules(list, b.tag) == 0
    modifies b, b.node
    ensures applied && released && b.removed
    ensures b.node.input == old(b.node.input) && b.node.output == old(b.node.output)
  {
    hide TaggedCount, Sweep, Insert, ListsComments;
    Restores(list, b.tag, Input, b.links, b.node.input);
    Restores(list, b.tag, Output, b.links, b.node.output);
    applied := b.Apply(list);
    released := b.Remove(list);
  }
}
