/** Sorting the configured RPC nodes into healthy and unhealthy ones. */
module RpcHealth {

  const MAX_HEIGHT_DIFFERENCE := 20

  /** What a node's status request came back with. */
  datatype NodeStatus = Unreachable(error: string) | Reachable(network: string, catchingUp: bool, height: int)

  datatype Reason = NotReachable(error: string) | WrongNetwork(network: string) | CatchingUp | Lagging(height: int, best: int)

  /** Reachable, on the right network, and not catching up. */
  predicate Follows(s: NodeStatus, chainId: string) {
    s.Reachable? && s.network == chainId && !s.catchingUp
  }

  /** The highest height among the nodes that follow the chain, 0 if none is above that. */
  function Best(urls: seq<string>, probe: string -> NodeStatus, chainId: string): int {
    if urls == [] then 0
    else
      var before := Best(urls[..|urls| - 1], probe, chainId);
      var s := probe(urls[|urls| - 1]);
      if Follows(s, chainId) && s.height > before then s.height else before
  }

  lemma {:induction false} BestIsHighest(urls: seq<string>, probe: string -> NodeStatus, chainId: string)
    ensures
      var best := Best(urls, probe, chainId);
      && best >= 0
      && (forall u <- urls :: Follows(probe(u), chainId) ==> probe(u).height <= best)
      && (best == 0 || exists u <- urls :: Follows(probe(u), chainId) && probe(u).height == best)
  {
    if urls != [] {
      var last := urls[|urls| - 1];
      BestIsHighest(urls[..|urls| - 1], probe, chainId);
      assert urls == urls[..|urls| - 1] + [last];
      assert last in urls;
    }
  }

  predicate IsHealthy(s: NodeStatus, chainId: string, best: int) {
    Follows(s, chainId) && s.height > best - MAX_HEIGHT_DIFFERENCE
  }

  function ReasonFor(s: NodeStatus, chainId: string, best: int): Reason {
    if s.Unreachable? then NotReachable(s.error)
    else if s.network != chainId then WrongNetwork(s.network)
    else if s.catchingUp then CatchingUp
    else Lagging(s.height, best)
  }

  // The lists each pass builds.

  function Following(urls: seq<string>, probe: string -> NodeStatus, chainId: string): seq<string> {
    if urls == [] then []
    else
      var u := urls[|urls| - 1];
      Following(urls[..|urls| - 1], probe, chainId) + if Follows(probe(u), chainId) then [u] else []
  }

  function Others(urls: seq<string>, probe: string -> NodeStatus, chainId: string): seq<string> {
    if urls == [] then []
    else
      var u := urls[|urls| - 1];
      Others(urls[..|urls| - 1], probe, chainId) + if Follows(probe(u), chainId) then [] else [u]
  }

  function Near(urls: seq<string>, probe: string -> NodeStatus, chainId: string, best: int): seq<string> {
    if urls == [] then []
    else
      var u := urls[|urls| - 1];
      Near(urls[..|urls| - 1], probe, chainId, best) + if IsHealthy(probe(u), chainId, best) then [u] else []
  }

  function Far(urls: seq<string>, probe: string -> NodeStatus, chainId: string, best: int): seq<string> {
    if urls == [] then []
    else
      var u := urls[|urls| - 1];
      Far(urls[..|urls| - 1], probe, chainId, best) + if IsHealthy(probe(u), chainId, best) then [] else [u]
  }

  lemma {:induction false} FirstSplit(urls: seq<string>, probe: string -> NodeStatus, chainId: string, u: string)
    ensures u in Following(urls, probe, chainId) <==> u in urls && Follows(probe(u), chainId)
    ensures u in Others(urls, probe, chainId) <==> u in urls && !Follows(probe(u), chainId)
    ensures multiset(Following(urls, probe, chainId)) + multiset(Others(urls, probe, chainId)) == multiset(urls)
  {
    if urls != [] {
      FirstSplit(urls[..|urls| - 1], probe, chainId, u);
      assert urls == urls[..|urls| - 1] + [urls[|urls| - 1]];
    }
  }

  lemma {:induction false} SecondSplit(urls: seq<string>, probe: string -> NodeStatus, chainId: string, best: int, u: string)
    ensures u in Near(urls, probe, chainId, best) <==> u in urls && IsHealthy(probe(u), chainId, best)
    ensures u in Far(urls, probe, chainId, best) <==> u in urls && !IsHealthy(probe(u), chainId, best)
    ensures multiset(Near(urls, probe, chainId, best)) + multiset(Far(urls, probe, chainId, best)) == multiset(urls)
  {
    if urls != [] {
      SecondSplit(urls[..|urls| - 1], probe, chainId, best, u);
      assert urls == urls[..|urls| - 1] + [urls[|urls| - 1]];
    }
  }

  lemma NearFarSnoc(urls: seq<string>, u: string, probe: string -> NodeStatus, chainId: string, best: int)
    ensures Near(urls + [u], probe, chainId, best) == Near(urls, probe, chainId, best) + if IsHealthy(probe(u), chainId, best) then [u] else []
    ensures Far(urls + [u], probe, chainId, best) == Far(urls, probe, chainId, best) + if IsHealthy(probe(u), chainId, best) then [] else [u]
  {
    assert (urls + [u])[..|urls|] == urls;
  }

  ghost predicate Explains(reasons: map<string, Reason>, unhealthy: seq<string>, probe: string -> NodeStatus, chainId: string, best: int) {
    && (forall u :: u in reasons <==> u in unhealthy)
    && (forall u :: u in reasons ==> reasons[u] == ReasonFor(probe(u), chainId, best))
  }

  lemma ExplainsSnoc(reasons: map<string, Reason>, unhealthy: seq<string>, probe: string -> NodeStatus, chainId: string, best: int, u: string)
    requires Explains(reasons, unhealthy, probe, chainId, best)
    ensures Explains(reasons[u := ReasonFor(probe(u), chainId, best)], unhealthy + [u], probe, chainId, best)
  {
  }

  /** Rules out the nodes that do not follow the chain, and finds the best height among the others. */
  method FirstPass(urls: seq<string>, probe: string -> NodeStatus, chainId: string)
    returns (responsive: seq<string>, unhealthy: seq<string>, reasons: map<string, Reason>, highest: int)
    ensures highest == Best(urls, probe, chainId)
    ensures responsive == Following(urls, probe, chainId)
    ensures unhealthy == Others(urls, probe, chainId)
    ensures Explains(reasons, unhealthy, probe, chainId, highest)
  {
    responsive, unhealthy, reasons, highest := [], [], map[], 0;
    for i := 0 to |urls|
      invariant highest == Best(urls[..i], probe, chainId)
      invariant responsive == Following(urls[..i], probe, chainId)
      invariant unhealthy == Others(urls[..i], probe, chainId)
      invariant Explains(reasons, unhealthy, probe, chainId, 0)
    {
      hide Explains;
      var url := urls[i];
      var status := probe(url);
      assert urls[..i + 1][..i] == urls[..i];
      if status.Reachable? {
        if chainId == status.network && status.catchingUp == false {
          responsive := responsive + [url];
          if status.height > highest {
            highest := status.height;
          }
        } else {
          ExplainsSnoc(reasons, unhealthy, probe, chainId, 0, url);
          unhealthy := unhealthy + [url];
          reasons := reasons[url := if chainId != status.network then WrongNetwork(status.network) else CatchingUp];
        }
      } else {
        ExplainsSnoc(reasons, unhealthy, probe, chainId, 0, url);
        unhealthy := unhealthy + [url];
        reasons := reasons[url := NotReachable(status.error)];
      }
    }
    assert urls[..|urls|] == urls;
    NotLagging(urls, reasons, probe, chainId, highest);
  }

  lemma NotLagging(urls: seq<string>, reasons: map<string, Reason>, probe: string -> NodeStatus, chainId: string, best: int)
    requires Explains(reasons, Others(urls, probe, chainId), probe, chainId, 0)
    ensures Explains(reasons, Others(urls, probe, chainId), probe, chainId, best)
  {
    forall u | u in reasons ensures reasons[u] == ReasonFor(probe(u), chainId, best) {
      FirstSplit(urls, probe, chainId, u);
    }
  }

  /** Separates the nodes too far behind the best from the healthy ones. */
  method SecondPass(responsive: seq<string>, out: seq<string>, why: map<string, Reason>, probe: string -> NodeStatus, chainId: string, highest: int)
    returns (healthy: seq<string>, unhealthy: seq<string>, reasons: map<string, Reason>)
    requires forall u <- responsive :: Follows(probe(u), chainId)
    requires Explains(why, out, probe, chainId, highest)
    ensures healthy == Near(responsive, probe, chainId, highest)
    ensures unhealthy == out + Far(responsive, probe, chainId, highest)
    ensures Explains(reasons, unhealthy, probe, chainId, highest)
  {
    assert Near([], probe, chainId, highest) == [] && Far([], probe, chainId, highest) == [];
    hide Explains, Near, Far;
    healthy, unhealthy, reasons := [], out, why;
    for i := 0 to |responsive|
      invariant healthy == Near(responsive[..i], probe, chainId, highest)
      invariant unhealthy == out + Far(responsive[..i], probe, chainId, highest)
      invariant Explains(reasons, unhealthy, probe, chainId, highest)
    {
      var url := responsive[i];
      assert url in responsive;
      NearFarSnoc(responsive[..i], url, probe, chainId, highest);
      assert responsive[..i + 1] == responsive[..i] + [url];
      var height := probe(url).height;
      if height > highest - MAX_HEIGHT_DIFFERENCE {
        healthy := healthy + [url];
      } else {
        ExplainsSnoc(reasons, unhealthy, probe, chainId, highest, url);
        unhealthy := unhealthy + [url];
        reasons := reasons[url := Lagging(height, highest)];
      }
    }
    assert responsive[..|responsive|] == responsive;
  }

  /** Reachable, on the chain's network, not catching up, and less than 20 blocks behind height 0 and every other such node. */
  ghost predicate KeepsUp(urls: seq<string>, probe: string -> NodeStatus, chainId: string, u: string) {
    var s := probe(u);
    && s.Reachable? && s.network == chainId && !s.catchingUp && s.height > -20
    && (forall v <- urls :: probe(v).Reachable? && probe(v).network == chainId && !probe(v).catchingUp ==> s.height > probe(v).height - 20)
  }

  /** The first of the four things that can be wrong with a node. */
  ghost predicate IsWhy(r: Reason, s: NodeStatus, chainId: string, best: int) {
    match s
    case Unreachable(error) => r == NotReachable(error)
    case Reachable(network, catchingUp, height) =>
      if network != chainId then r == WrongNetwork(network)
      else if catchingUp then r == CatchingUp
      else r == Lagging(height, best) && height <= best - 20
  }

  lemma KeepsUpIff(urls: seq<string>, probe: string -> NodeStatus, chainId: string)
    ensures forall u <- urls :: IsHealthy(probe(u), chainId, Best(urls, probe, chainId)) <==> KeepsUp(urls, probe, chainId, u)
    ensures
      var best := Best(urls, probe, chainId);
      forall u <- urls :: !KeepsUp(urls, probe, chainId, u) ==> IsWhy(ReasonFor(probe(u), chainId, best), probe(u), chainId, best)
  {
    BestIsHighest(urls, probe, chainId);
    var best := Best(urls, probe, chainId);
    forall u | u in urls ensures IsHealthy(probe(u), chainId, best) <==> KeepsUp(urls, probe, chainId, u) {
      if KeepsUp(urls, probe, chainId, u) && best > 0 {
        var top :| top in urls && Follows(probe(top), chainId) && probe(top).height == best;
      }
    }
  }

  /**
   * Two passes: the first rules out the nodes that do not follow the chain, the second those too far
   * behind the best of the rest. Every node ends up in exactly one list, every unhealthy one with its
   * reason. The URLs are distinct, as the second pass keeps one entry per URL.
   */
  method CheckHealth(urls: seq<string>, probe: string -> NodeStatus, chainId: string)
    returns (healthy: seq<string>, unhealthy: seq<string>, reasons: map<string, Reason>)
    requires forall i, j :: 0 <= i < j < |urls| ==> urls[i] != urls[j]
    ensures multiset(healthy) + multiset(unhealthy) == multiset(urls)
    ensures forall u :: u in healthy <==> u in urls && KeepsUp(urls, probe, chainId, u)
    ensures forall u :: u in unhealthy <==> u in urls && !KeepsUp(urls, probe, chainId, u)
    ensures forall u :: u in reasons <==> u in unhealthy
    ensures forall u :: u in reasons ==> IsWhy(reasons[u], probe(u), chainId, Best(urls, probe, chainId))
    ensures healthy != [] <==> exists u <- urls :: Follows(probe(u), chainId) && probe(u).height > -20
  {
    hide *;
    var responsive, out, why, highest := FirstPass(urls, probe, chainId);
    AllFollow(urls, probe, chainId);
    healthy, unhealthy, reasons := SecondPass(responsive, out, why, probe, chainId, highest);
    Sorted(urls, probe, chainId);
    SomeHealthyIff(urls, probe, chainId, healthy);
    KeepsUpIff(urls, probe, chainId);
    Reasoned(reasons, unhealthy, probe, chainId, highest);
  }

  lemma Reasoned(reasons: map<string, Reason>, unhealthy: seq<string>, probe: string -> NodeStatus, chainId: string, best: int)
    requires Explains(reasons, unhealthy, probe, chainId, best)
    ensures forall u :: u in reasons <==> u in unhealthy
    ensures forall u :: u in reasons ==> reasons[u] == ReasonFor(probe(u), chainId, best)
  {
  }

  lemma AllFollow(urls: seq<string>, probe: string -> NodeStatus, chainId: string)
    ensures forall u <- Following(urls, probe, chainId) :: Follows(probe(u), chainId)
  {
    forall u | u in Following(urls, probe, chainId) ensures Follows(probe(u), chainId) {
      FirstSplit(urls, probe, chainId, u);
    }
  }

  lemma Sorted(urls: seq<string>, probe: string -> NodeStatus, chainId: string)
    ensures
      var best := Best(urls, probe, chainId);
      var responsive := Following(urls, probe, chainId);
      var healthy := Near(responsive, probe, chainId, best);
      var unhealthy := Others(urls, probe, chainId) + Far(responsive, probe, chainId, best);
      && multiset(healthy) + multiset(unhealthy) == multiset(urls)
      && (forall u :: u in healthy <==> u in urls && IsHealthy(probe(u), chainId, best))
      && (forall u :: u in unhealthy <==> u in urls && !IsHealthy(probe(u), chainId, best))
  {
    var best := Best(urls, probe, chainId);
    var responsive := Following(urls, probe, chainId);
    var healthy := Near(responsive, probe, chainId, best);
    var out, far := Others(urls, probe, chainId), Far(responsive, probe, chainId, best);
    FirstSplit(urls, probe, chainId, "");
    SecondSplit(responsive, probe, chainId, best, "");
    assert multiset(out + far) == multiset(out) + multiset(far);
    forall u
      ensures u in healthy <==> u in urls && IsHealthy(probe(u), chainId, best)
      ensures u in out + far <==> u in urls && !IsHealthy(probe(u), chainId, best)
    {
      FirstSplit(urls, probe, chainId, u);
      SecondSplit(responsive, probe, chainId, best, u);
    }
  }

  /** The best node is healthy itself, so some node is whenever one that follows the chain is above -20. */
  lemma SomeHealthyIff(urls: seq<string>, probe: string -> NodeStatus, chainId: string, healthy: seq<string>)
    requires forall u :: u in healthy <==> u in urls && IsHealthy(probe(u), chainId, Best(urls, probe, chainId))
    ensures healthy != [] <==> exists u <- urls :: Follows(probe(u), chainId) && probe(u).height > -20
  {
    var best := Best(urls, probe, chainId);
    BestIsHighest(urls, probe, chainId);
    if healthy != [] {
      assert healthy[0] in healthy;
    }
    if u :| u in urls && Follows(probe(u), chainId) && probe(u).height > -20 {
      if best == 0 {
        assert u in healthy;
      } else {
        var top :| top in urls && Follows(probe(top), chainId) && probe(top).height == best;
        assert top in healthy;
      }
    }
  }
}
