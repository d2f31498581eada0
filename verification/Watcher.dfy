/** The watcher that turns table snapshots into events, with polls that may overlap. */
module Watcher {
  import opened Domain

  datatype Notice =
    | NewBlock(chain: string, mark: int, block: Block)  // `mark` is the recorded height it was read for
    | Online(chain: string)
    | AlertOpened(chain: string, id: nat)
    | AlertClosed(chain: string, id: nat)

  // ---- the snapshot difference --------------------------------------------

  function IdSet(ids: seq<nat>): set<nat> {
    set id | id in ids
  }

  /** A JavaScript Set built from an array: first occurrences, in order. */
  function Unique(ids: seq<nat>): (r: seq<nat>)
    ensures forall i, j :: 0 <= i < j < |r| ==> r[i] != r[j]
  {
    if ids == [] then []
    else
      var before := Unique(ids[..|ids| - 1]);
      if ids[|ids| - 1] in before then before else before + [ids[|ids| - 1]]
  }

  lemma IdSetAppend(ids: seq<nat>, id: nat)
    ensures IdSet(ids + [id]) == IdSet(ids) + {id}
  {
  }

  lemma {:induction false} UniqueSameIds(ids: seq<nat>)
    ensures IdSet(Unique(ids)) == IdSet(ids)
  {
    if ids != [] {
      var rest, last := ids[..|ids| - 1], ids[|ids| - 1];
      UniqueSameIds(rest);
      assert ids == rest + [last];
      IdSetAppend(rest, last);
      IdSetAppend(Unique(rest), last);
    }
  }

  function Openings(chain: string, current: seq<nat>, prev: seq<nat>): seq<Notice> {
    if current == [] then []
    else
      var last := current[|current| - 1];
      Openings(chain, current[..|current| - 1], prev) + (if last in prev then [] else [AlertOpened(chain, last)])
  }

  function Closings(chain: string, prev: seq<nat>, current: seq<nat>): seq<Notice> {
    if prev == [] then []
    else
      var last := prev[|prev| - 1];
      Closings(chain, prev[..|prev| - 1], current) + (if last in current then [] else [AlertClosed(chain, last)])
  }

  /** What a subscriber who applies a chain's alert events to `ids` ends up with. */
  function Folded(chain: string, ids: set<nat>, log: seq<Notice>): set<nat> {
    if log == [] then ids
    else
      var before := Folded(chain, ids, log[..|log| - 1]);
      match log[|log| - 1]
      case AlertOpened(c, id) => if c == chain then before + {id} else before
      case AlertClosed(c, id) => if c == chain then before - {id} else before
      case _ => before
  }

  lemma {:induction false} FoldedAppend(chain: string, ids: set<nat>, xs: seq<Notice>, n: Notice)
    ensures Folded(chain, ids, xs + [n]) ==
      match n
      case AlertOpened(c, id) => (if c == chain then Folded(chain, ids, xs) + {id} else Folded(chain, ids, xs))
      case AlertClosed(c, id) => (if c == chain then Folded(chain, ids, xs) - {id} else Folded(chain, ids, xs))
      case _ => Folded(chain, ids, xs)
  {
    assert (xs + [n])[..|xs|] == xs;
  }

  lemma DifferenceAppend(xs: seq<nat>, x: nat, ys: seq<nat>)
    ensures IdSet(xs + [x]) - IdSet(ys) == IdSet(xs) - IdSet(ys) + (if x in ys then {} else {x})
  {
    IdSetAppend(xs, x);
  }

  lemma {:induction false} FoldedOpenings(chain: string, ids: set<nat>, log: seq<Notice>, c: string, current: seq<nat>, prev: seq<nat>)
    ensures Folded(chain, ids, log + Openings(c, current, prev)) ==
      Folded(chain, ids, log) + if c == chain then IdSet(current) - IdSet(prev) else {}
  {
    assert IdSet([]) == {};
    hide Folded, IdSet;
    if current == [] {
      assert log + [] == log;
    } else {
      var rest, last := current[..|current| - 1], current[|current| - 1];
      assert current == rest + [last];
      FoldedOpenings(chain, ids, log, c, rest, prev);
      DifferenceAppend(rest, last, prev);
      var so := log + Openings(c, rest, prev);
      assert log + Openings(c, current, prev) == if last in prev then so else so + [AlertOpened(c, last)];
      FoldedAppend(chain, ids, so, AlertOpened(c, last));
    }
  }

  lemma {:induction false} FoldedClosings(chain: string, ids: set<nat>, log: seq<Notice>, c: string, prev: seq<nat>, current: seq<nat>)
    ensures Folded(chain, ids, log + Closings(c, prev, current)) ==
      Folded(chain, ids, log) - if c == chain then IdSet(prev) - IdSet(current) else {}
  {
    assert IdSet([]) == {};
    hide Folded, IdSet;
    if prev == [] {
      assert log + [] == log;
    } else {
      var rest, last := prev[..|prev| - 1], prev[|prev| - 1];
      assert prev == rest + [last];
      FoldedClosings(chain, ids, log, c, rest, current);
      DifferenceAppend(rest, last, current);
      var so := log + Closings(c, rest, current);
      assert log + Closings(c, prev, current) == if last in current then so else so + [AlertClosed(c, last)];
      FoldedAppend(chain, ids, so, AlertClosed(c, last));
    }
  }

  // ---- what the watcher keeps ---------------------------------------------

  datatype Memory = Memory(lastHeights: map<string, int>, lastIds: map<string, seq<nat>>, published: seq<Notice>)

  function HeightOf(m: Memory, chain: string): int {
    if chain in m.lastHeights then m.lastHeights[chain] else 0
  }

  function IdsOf(m: Memory, chain: string): seq<nat> {
    if chain in m.lastIds then m.lastIds[chain] else []
  }

  predicate IsNewer(m: Memory, chain: string, answer: Option<int>) {
    answer.Some? && answer.value > HeightOf(m, chain)
  }

  function AfterHeight(m: Memory, chain: string, answer: Option<int>): Memory {
    if IsNewer(m, chain, answer) then m.(lastHeights := m.lastHeights[chain := answer.value]) else m
  }

  function AfterBlock(m: Memory, chain: string, mark: int, answer: Option<Block>): Memory {
    if answer.None? then m else m.(published := m.published + [NewBlock(chain, mark, answer.value), Online(chain)])
  }

  function AfterAlerts(m: Memory, chain: string, answer: Option<seq<nat>>): Memory {
    if answer.None? then m
    else
      var current, prev := answer.value, IdsOf(m, chain);
      Memory(m.lastHeights, m.lastIds[chain := Unique(current)],
             m.published + Openings(chain, current, prev) + Closings(chain, prev, Unique(current)))
  }

  // What the start-up reads leave: a failed or empty height read counts as 0, a failed alert read as no alerts.

  function FirstHeight(heights: map<string, int>, c: string): int { if c in heights then heights[c] else 0 }

  function FirstIds(unclosed: map<string, seq<nat>>, c: string): seq<nat> { if c in unclosed then Unique(unclosed[c]) else [] }

  function Begun(chains: seq<string>, heights: map<string, int>, unclosed: map<string, seq<nat>>): Memory {
    Memory(map c | c in chains :: FirstHeight(heights, c), map c | c in chains :: FirstIds(unclosed, c), [])
  }

  lemma BegunSnoc(chains: seq<string>, c: string, heights: map<string, int>, unclosed: map<string, seq<nat>>)
    ensures
      var m := Begun(chains, heights, unclosed);
      Begun(chains + [c], heights, unclosed) ==
        m.(lastHeights := m.lastHeights[c := FirstHeight(heights, c)], lastIds := m.lastIds[c := FirstIds(unclosed, c)])
  {
    hide FirstHeight, FirstIds;
    var m, all := Begun(chains, heights, unclosed), Begun(chains + [c], heights, unclosed);
    assert all.lastHeights == m.lastHeights[c := FirstHeight(heights, c)];
    assert all.lastIds == m.lastIds[c := FirstIds(unclosed, c)];
  }

  lemma BegunIs(chains: seq<string>, heights: map<string, int>, unclosed: map<string, seq<nat>>)
    ensures
      var m := Begun(chains, heights, unclosed);
      && m.published == [] && (forall c :: c in m.lastHeights <==> c in chains) && (forall c :: c in m.lastIds <==> c in chains)
      && (forall c <- chains :: m.lastHeights[c] == if c in heights then heights[c] else 0)
      && (forall c <- chains :: IdSet(m.lastIds[c]) == if c in unclosed then IdSet(unclosed[c]) else {})
  {
    forall c | c in chains ensures IdSet(FirstIds(unclosed, c)) == if c in unclosed then IdSet(unclosed[c]) else {} {
      if c in unclosed {
        UniqueSameIds(unclosed[c]);
      } else {
        assert IdSet([]) == {};
      }
    }
  }

  /** The maps and the bus; each method is the code between two awaits. An absent answer is a failed or empty read. */
  class Watch {
    var lastHeights: map<string, int>
    var lastAlertIds: map<string, seq<nat>>
    var published: seq<Notice>

    ghost function Contents(): Memory
      reads this
    {
      Memory(lastHeights, lastAlertIds, published)
    }

    /** The start-up loop, which fills both maps chain by chain, ends in the state every run starts from. */
    constructor (chains: seq<string>, heights: map<string, int>, unclosed: map<string, seq<nat>>)
      ensures Contents() == Started(chains, heights, unclosed).memory
      ensures published == [] && (forall c :: c in lastHeights <==> c in chains) && (forall c :: c in lastAlertIds <==> c in chains)
      ensures forall c <- chains :: lastHeights[c] == if c in heights then heights[c] else 0
      ensures forall c <- chains :: IdSet(lastAlertIds[c]) == if c in unclosed then IdSet(unclosed[c]) else {}
    {
      lastHeights, lastAlertIds, published := map[], map[], [];
      new;
      assert Contents() == Begun([], heights, unclosed);
      hide Begun, FirstHeight, FirstIds;
      for k := 0 to |chains|
        invariant Contents() == Begun(chains[..k], heights, unclosed)
      {
        var c := chains[k];
        assert chains[..k + 1] == chains[..k] + [c];
        BegunSnoc(chains[..k], c, heights, unclosed);
        lastHeights := lastHeights[c := FirstHeight(heights, c)];
        lastAlertIds := lastAlertIds[c := FirstIds(unclosed, c)];
      }
      assert chains[..|chains|] == chains;
      BegunIs(chains, heights, unclosed);
    }

    method CheckBlocks(chain: string, answer: Option<int>) returns (wantsBlock: bool)
      modifies this`lastHeights
      ensures Contents() == AfterHeight(old(Contents()), chain, answer)
      ensures wantsBlock <==> IsNewer(old(Contents()), chain, answer)
      ensures wantsBlock <==> answer.Some? && answer.value > if chain in old(lastHeights) then old(lastHeights)[chain] else 0
      ensures lastHeights == if wantsBlock then old(lastHeights)[chain := answer.value] else old(lastHeights)
    {
      if answer.None? {
        return false;
      }
      var newHeight := answer.value;
      var prevHeight := if chain in lastHeights then lastHeights[chain] else 0;
      if newHeight <= prevHeight {
        return false;
      }
      lastHeights := lastHeights[chain := newHeight];
      return true;
    }

    method PublishBlock(chain: string, mark: int, answer: Option<Block>)
      modifies this`published
      ensures Contents() == AfterBlock(old(Contents()), chain, mark, answer)
      ensures published == old(published) + if answer.Some? then [NewBlock(chain, mark, answer.value), Online(chain)] else []
    {
      if answer.None? {
        return;
      }
      published := published + [NewBlock(chain, mark, answer.value)];
      published := published + [Online(chain)];
    }

    method CheckAlerts(chain: string, answer: Option<seq<nat>>)
      modifies this`published, this`lastAlertIds
      ensures Contents() == AfterAlerts(old(Contents()), chain, answer)
    {
      if answer.None? {
        return;
      }
      var current := answer.value;
      var currentIds := Unique(current);
      var prevIds := if chain in lastAlertIds then lastAlertIds[chain] else [];
      for i := 0 to |current|
        invariant published == old(published) + Openings(chain, current[..i], prevIds)
        invariant lastAlertIds == old(lastAlertIds)
      {
        assert current[..i + 1][..i] == current[..i];
        if current[i] !in prevIds {
          published := published + [AlertOpened(chain, current[i])];
        }
      }
      assert current[..|current|] == current;
      ghost var withOpenings := published;
      for i := 0 to |prevIds|
        invariant published == withOpenings + Closings(chain, prevIds[..i], currentIds)
        invariant lastAlertIds == old(lastAlertIds)
      {
        assert prevIds[..i + 1][..i] == prevIds[..i];
        if prevIds[i] !in currentIds {
          published := published + [AlertClosed(chain, prevIds[i])];
        }
      }
      assert prevIds[..|prevIds|] == prevIds;
      lastAlertIds := lastAlertIds[chain := currentIds];
    }
  }

  // ---- overlapping polls --------------------------------------------------

  datatype Stage = AwaitHeight | AwaitBlock(mark: int) | AwaitAlerts

  datatype Poll = Poll(index: nat, stage: Stage)

  /** `recorded` lists the heights written to `lastHeights`, in order. */
  datatype State = State(chains: seq<string>, memory: Memory, polls: map<nat, Poll>, nextPoll: nat, recorded: seq<(string, int)>)

  datatype Action =
    | Tick
    | HeightAnswer(poll: nat, height: Option<int>)
    | BlockAnswer(poll: nat, block: Option<Block>)
    | AlertsAnswer(poll: nat, ids: Option<seq<nat>>)
    | Throws(poll: nat)

  function Started(chains: seq<string>, heights: map<string, int>, unclosed: map<string, seq<nat>>): State {
    State(chains, Begun(chains, heights, unclosed), map[], 0, [])
  }

  predicate Awaiting(s: State, p: nat) {
    p in s.polls && s.polls[p].index < |s.chains|
  }

  function Chain(s: State, p: nat): string
    requires Awaiting(s, p)
  {
    s.chains[s.polls[p].index]
  }

  function Moved(s: State, p: nat, m: Memory, stage: Stage): State
    requires p in s.polls
  {
    s.(memory := m, polls := s.polls[p := s.polls[p].(stage := stage)])
  }

  /** On to the next chain, or done. */
  function Onward(s: State, p: nat, m: Memory): State
    requires p in s.polls
  {
    var k := s.polls[p].index + 1;
    s.(memory := m, polls := if k < |s.chains| then s.polls[p := Poll(k, AwaitHeight)] else s.polls - {p})
  }

  /** An answer for a poll that is not waiting for it does nothing. */
  function Next(s: State, a: Action): State {
    match a
    case Tick =>
      if s.chains == [] then s else s.(polls := s.polls[s.nextPoll := Poll(0, AwaitHeight)], nextPoll := s.nextPoll + 1)
    case HeightAnswer(p, height) =>
      if !(Awaiting(s, p) && s.polls[p].stage.AwaitHeight?) then s
      else
        var m := AfterHeight(s.memory, Chain(s, p), height);
        if IsNewer(s.memory, Chain(s, p), height)
        then Moved(s, p, m, AwaitBlock(height.value)).(recorded := s.recorded + [(Chain(s, p), height.value)])
        else Moved(s, p, m, AwaitAlerts)
    case BlockAnswer(p, block) =>
      if !(Awaiting(s, p) && s.polls[p].stage.AwaitBlock?) then s
      else Moved(s, p, AfterBlock(s.memory, Chain(s, p), s.polls[p].stage.mark, block), AwaitAlerts)
    case AlertsAnswer(p, ids) =>
      if !(Awaiting(s, p) && s.polls[p].stage.AwaitAlerts?) then s
      else Onward(s, p, AfterAlerts(s.memory, Chain(s, p), ids))
    case Throws(p) => s.(polls := s.polls - {p})
  }

  function Run(s: State, acts: seq<Action>): State {
    if acts == [] then s else Next(Run(s, acts[..|acts| - 1]), acts[|acts| - 1])
  }

  // ---- events fold back to the snapshot -----------------------------------

  predicate Processes(s: State, a: Action, chain: string) {
    a.AlertsAnswer? && a.ids.Some? && Awaiting(s, a.poll) && s.polls[a.poll].stage.AwaitAlerts? && Chain(s, a.poll) == chain
  }

  /** The ids in the snapshot of the chain that was processed last. */
  function LastSnapshot(s: State, acts: seq<Action>, chain: string): set<nat> {
    if acts == [] then IdSet(IdsOf(s.memory, chain))
    else if Processes(Run(s, acts[..|acts| - 1]), acts[|acts| - 1], chain) then IdSet(acts[|acts| - 1].ids.value)
    else LastSnapshot(s, acts[..|acts| - 1], chain)
  }

  lemma FoldedAlerts(chain: string, ids: set<nat>, m: Memory, c: string, answer: Option<seq<nat>>)
    requires Folded(chain, ids, m.published) == IdSet(IdsOf(m, chain))
    ensures
      var after := AfterAlerts(m, c, answer);
      && Folded(chain, ids, after.published) == IdSet(IdsOf(after, chain))
      && IdSet(IdsOf(after, chain)) == if answer.Some? && c == chain then IdSet(answer.value) else IdSet(IdsOf(m, chain))
  {
    if answer.Some? {
      var current, prev := answer.value, IdsOf(m, c);
      UniqueSameIds(current);
      FoldedOpenings(chain, ids, m.published, c, current, prev);
      FoldedClosings(chain, ids, m.published + Openings(c, current, prev), c, prev, Unique(current));
    }
  }

  lemma FoldedBlock(chain: string, ids: set<nat>, m: Memory, c: string, mark: int, answer: Option<Block>)
    ensures Folded(chain, ids, AfterBlock(m, c, mark, answer).published) == Folded(chain, ids, m.published)
  {
    if answer.Some? {
      var one, two := NewBlock(c, mark, answer.value), Online(c);
      FoldedAppend(chain, ids, m.published, one);
      FoldedAppend(chain, ids, m.published + [one], two);
      assert m.published + [one, two] == m.published + [one] + [two];
    }
  }

  lemma FoldedStep(chain: string, ids: set<nat>, s: State, a: Action)
    requires Folded(chain, ids, s.memory.published) == IdSet(IdsOf(s.memory, chain))
    ensures
      var t := Next(s, a);
      && Folded(chain, ids, t.memory.published) == IdSet(IdsOf(t.memory, chain))
      && IdSet(IdsOf(t.memory, chain)) == if Processes(s, a, chain) then IdSet(a.ids.value) else IdSet(IdsOf(s.memory, chain))
  {
    hide Folded, Unique, Openings, Closings, IdSet;
    match a
    case BlockAnswer(p, block) =>
      if Awaiting(s, p) && s.polls[p].stage.AwaitBlock? {
        FoldedBlock(chain, ids, s.memory, Chain(s, p), s.polls[p].stage.mark, block);
      }
    case AlertsAnswer(p, answer) =>
      if Awaiting(s, p) && s.polls[p].stage.AwaitAlerts? {
        FoldedAlerts(chain, ids, s.memory, Chain(s, p), answer);
      }
    case _ =>
  }

  /**
   * Under any interleaving of overlapping polls and any order of their answers, the published alert
   * events applied to the ids known at the start give the last processed snapshot.
   */
  lemma {:induction false} EventsFoldToSnapshot(chains: seq<string>, heights: map<string, int>, ids: map<string, seq<nat>>, acts: seq<Action>, chain: string)
    ensures
      var s0 := Started(chains, heights, ids);
      var s := Run(s0, acts);
      && Folded(chain, IdSet(IdsOf(s0.memory, chain)), s.memory.published) == LastSnapshot(s0, acts, chain)
      && IdSet(IdsOf(s.memory, chain)) == LastSnapshot(s0, acts, chain)
  {
    if acts != [] {
      var s0 := Started(chains, heights, ids);
      EventsFoldToSnapshot(chains, heights, ids, acts[..|acts| - 1], chain);
      FoldedStep(chain, IdSet(IdsOf(s0.memory, chain)), Run(s0, acts[..|acts| - 1]), acts[|acts| - 1]);
    }
  }

  // ---- the recorded heights -----------------------------------------------

  /** The action is an answer of that height to a poll that waits for the chain's height. */
  predicate Hears(s: State, a: Action, chain: string, height: int) {
    a.HeightAnswer? && a.height == Some(height) && Awaiting(s, a.poll) && s.polls[a.poll].stage.AwaitHeight? && Chain(s, a.poll) == chain
  }

  /** Nothing above `top` was heard about the chain, and `top` was, unless it is what the watcher started from. */
  ghost predicate HighestHeard(s: State, acts: seq<Action>, chain: string, top: int) {
    && HeightOf(s.memory, chain) <= top
    && (forall n, h :: 0 <= n < |acts| && Hears(Run(s, acts[..n]), acts[n], chain, h) ==> h <= top)
    && (top == HeightOf(s.memory, chain) || exists n :: 0 <= n < |acts| && Hears(Run(s, acts[..n]), acts[n], chain, top))
  }

  lemma HeightStep(s: State, a: Action, chain: string)
    ensures
      var was := HeightOf(s.memory, chain);
      HeightOf(Next(s, a).memory, chain) ==
        if a.HeightAnswer? && a.height.Some? && Hears(s, a, chain, a.height.value) && a.height.value > was then a.height.value else was
  {
    hide Openings, Closings, Unique;
  }

  /** The height recorded for a chain is the highest one heard, over every run, polls overlapping or not. */
  lemma {:induction false} RecordedIsHighest(s: State, acts: seq<Action>, chain: string)
    ensures HighestHeard(s, acts, chain, HeightOf(Run(s, acts).memory, chain))
  {
    if acts != [] {
      var before, a := acts[..|acts| - 1], acts[|acts| - 1];
      RecordedIsHighest(s, before, chain);
      HeightStep(Run(s, before), a, chain);
      hide Next, HeightOf, Hears;
      HighestSnoc(s, before, a, chain, HeightOf(Run(s, before).memory, chain), HeightOf(Run(s, acts).memory, chain));
      assert acts == before + [a];
    }
  }

  lemma HighestSnoc(s: State, before: seq<Action>, a: Action, chain: string, was: int, now: int)
    requires HighestHeard(s, before, chain, was)
    requires now == if a.HeightAnswer? && a.height.Some? && Hears(Run(s, before), a, chain, a.height.value) && a.height.value > was
                    then a.height.value else was
    ensures HighestHeard(s, before + [a], chain, now)
  {
    hide Run, HeightOf;
    var acts := before + [a];
    assert acts[..|before|] == before;
    forall n, h | 0 <= n < |acts| && Hears(Run(s, acts[..n]), acts[n], chain, h) ensures h <= now {
      if n < |before| {
        assert acts[..n] == before[..n];
      }
    }
    if now != was {
      assert Hears(Run(s, acts[..|before|]), acts[|before|], chain, now);
    } else if was != HeightOf(s.memory, chain) {
      var n :| 0 <= n < |before| && Hears(Run(s, before[..n]), before[n], chain, was);
      assert acts[..n] == before[..n];
    }
  }

  // ---- no event repeats what the subscriber has ---------------------------

  /** Each alert opens only while the subscriber does not have it and closes only while it does. */
  ghost predicate Alternates(chain: string, ids: set<nat>, log: seq<Notice>) {
    forall k :: 0 <= k < |log| ==>
      && (log[k].AlertOpened? && log[k].chain == chain ==> log[k].id !in Folded(chain, ids, log[..k]))
      && (log[k].AlertClosed? && log[k].chain == chain ==> log[k].id in Folded(chain, ids, log[..k]))
  }

  lemma AlternatesAppend(chain: string, ids: set<nat>, log: seq<Notice>, n: Notice)
    requires Alternates(chain, ids, log)
    requires n.AlertOpened? && n.chain == chain ==> n.id !in Folded(chain, ids, log)
    requires n.AlertClosed? && n.chain == chain ==> n.id in Folded(chain, ids, log)
    ensures Alternates(chain, ids, log + [n])
  {
    var more := log + [n];
    forall k | 0 <= k < |more|
      ensures
        && (more[k].AlertOpened? && more[k].chain == chain ==> more[k].id !in Folded(chain, ids, more[..k]))
        && (more[k].AlertClosed? && more[k].chain == chain ==> more[k].id in Folded(chain, ids, more[..k]))
    {
      assert more[..k] == log[..k];
      if k == |log| {
        assert log[..k] == log;
      }
    }
  }

  ghost predicate Distinct(ids: seq<nat>) {
    forall i, j :: 0 <= i < j < |ids| ==> ids[i] != ids[j]
  }

  lemma {:induction false} AlternatesOpenings(chain: string, ids: set<nat>, log: seq<Notice>, c: string, current: seq<nat>, prev: seq<nat>)
    requires Alternates(chain, ids, log) && Distinct(current)
    requires c == chain ==> Folded(chain, ids, log) == IdSet(prev)
    ensures Alternates(chain, ids, log + Openings(c, current, prev))
  {
    if current == [] {
      assert log + [] == log;
    } else {
      var rest, last := current[..|current| - 1], current[|current| - 1];
      AlternatesOpenings(chain, ids, log, c, rest, prev);
      FoldedOpenings(chain, ids, log, c, rest, prev);
      var so := log + Openings(c, rest, prev);
      if last !in prev {
        assert last !in IdSet(prev) && last !in IdSet(rest);
        AlternatesAppend(chain, ids, so, AlertOpened(c, last));
      }
      assert log + Openings(c, current, prev) == if last in prev then so else so + [AlertOpened(c, last)];
    }
  }

  lemma {:induction false} AlternatesClosings(chain: string, ids: set<nat>, log: seq<Notice>, c: string, prev: seq<nat>, current: seq<nat>)
    requires Alternates(chain, ids, log) && Distinct(prev)
    requires c == chain ==> IdSet(prev) <= Folded(chain, ids, log)
    ensures Alternates(chain, ids, log + Closings(c, prev, current))
  {
    if prev == [] {
      assert log + [] == log;
    } else {
      var rest, last := prev[..|prev| - 1], prev[|prev| - 1];
      assert IdSet(rest) <= IdSet(prev);
      AlternatesClosings(chain, ids, log, c, rest, current);
      FoldedClosings(chain, ids, log, c, rest, current);
      var so := log + Closings(c, rest, current);
      if last !in current {
        assert last in IdSet(prev) && last !in IdSet(rest);
        AlternatesAppend(chain, ids, so, AlertClosed(c, last));
      }
      assert log + Closings(c, prev, current) == if last in current then so else so + [AlertClosed(c, last)];
    }
  }

  ghost predicate Settled(chain: string, ids: set<nat>, m: Memory) {
    && Folded(chain, ids, m.published) == IdSet(IdsOf(m, chain))
    && Distinct(IdsOf(m, chain))
    && Alternates(chain, ids, m.published)
  }

  lemma SettledAlerts(chain: string, ids: set<nat>, m: Memory, c: string, current: seq<nat>)
    requires Settled(chain, ids, m) && Distinct(current)
    requires c != chain ==> Distinct(IdsOf(m, c))
    ensures Settled(chain, ids, AfterAlerts(m, c, Some(current)))
  {
    var prev := IdsOf(m, c);
    FoldedAlerts(chain, ids, m, c, Some(current));
    AlternatesOpenings(chain, ids, m.published, c, current, prev);
    FoldedOpenings(chain, ids, m.published, c, current, prev);
    AlternatesClosings(chain, ids, m.published + Openings(c, current, prev), c, prev, Unique(current));
  }

  lemma SettledBlock(chain: string, ids: set<nat>, m: Memory, c: string, mark: int, answer: Option<Block>)
    requires Settled(chain, ids, m)
    ensures Settled(chain, ids, AfterBlock(m, c, mark, answer))
  {
    FoldedBlock(chain, ids, m, c, mark, answer);
    if answer.Some? {
      var one, two := NewBlock(c, mark, answer.value), Online(c);
      AlternatesAppend(chain, ids, m.published, one);
      AlternatesAppend(chain, ids, m.published + [one], two);
      assert m.published + [one, two] == m.published + [one] + [two];
    }
  }

  /** As long as no snapshot lists an alert twice, no event is redundant: opens and closes of an alert alternate. */
  lemma {:induction false} EventsAlternate(chains: seq<string>, heights: map<string, int>, ids: map<string, seq<nat>>, acts: seq<Action>, chain: string)
    requires forall a <- acts :: a.AlertsAnswer? && a.ids.Some? ==> Distinct(a.ids.value)
    ensures
      var s0 := Started(chains, heights, ids);
      var m := Run(s0, acts).memory;
      && (forall c <- m.lastIds :: Distinct(m.lastIds[c]))
      && Settled(chain, IdSet(IdsOf(s0.memory, chain)), m)
  {
    if acts != [] {
      var s0 := Started(chains, heights, ids);
      EventsAlternate(chains, heights, ids, acts[..|acts| - 1], chain);
      var s, a := Run(s0, acts[..|acts| - 1]), acts[|acts| - 1];
      match a
      case BlockAnswer(p, block) =>
        if Awaiting(s, p) && s.polls[p].stage.AwaitBlock? {
          SettledBlock(chain, IdSet(IdsOf(s0.memory, chain)), s.memory, Chain(s, p), s.polls[p].stage.mark, block);
        }
      case AlertsAnswer(p, Some(current)) =>
        if Awaiting(s, p) && s.polls[p].stage.AwaitAlerts? {
          SettledAlerts(chain, IdSet(IdsOf(s0.memory, chain)), s.memory, Chain(s, p), current);
        }
      case _ =>
    }
  }

  // ---- recorded heights and published blocks ------------------------------

  ghost predicate Rising(r: seq<(string, int)>) {
    forall i, j :: 0 <= i < j < |r| && r[i].0 == r[j].0 ==> r[i].1 < r[j].1
  }

  /** The recorded heights whose block was published, in publication order. */
  function Marks(log: seq<Notice>): seq<(string, int)> {
    if log == [] then []
    else Marks(log[..|log| - 1]) + (match log[|log| - 1] case NewBlock(c, mark, _) => [(c, mark)] case _ => [])
  }

  lemma MarksAppend(log: seq<Notice>, n: Notice)
    ensures Marks(log + [n]) == Marks(log) + if n.NewBlock? then [(n.chain, n.mark)] else []
  {
    assert (log + [n])[..|log|] == log;
  }

  lemma {:induction false} MarksOfAlerts(log: seq<Notice>, more: seq<Notice>)
    requires forall n <- more :: !n.NewBlock?
    ensures Marks(log + more) == Marks(log)
  {
    if more == [] {
      assert log + [] == log;
    } else {
      MarksOfAlerts(log, more[..|more| - 1]);
      MarksAppend(log + more[..|more| - 1], more[|more| - 1]);
      assert log + more == log + more[..|more| - 1] + [more[|more| - 1]];
    }
  }

  lemma MarksAfterAlerts(m: Memory, c: string, answer: Option<seq<nat>>)
    ensures Marks(AfterAlerts(m, c, answer).published) == Marks(m.published)
  {
    if answer.Some? {
      var current, prev := answer.value, IdsOf(m, c);
      NoBlocksIn(c, current, prev);
      NoBlocksIn(c, Unique(current), prev);
      MarksOfAlerts(m.published, Openings(c, current, prev));
      MarksOfAlerts(m.published + Openings(c, current, prev), Closings(c, prev, Unique(current)));
    }
  }

  lemma NoBlocksIn(c: string, current: seq<nat>, prev: seq<nat>)
    ensures forall n <- Openings(c, current, prev) :: !n.NewBlock?
    ensures forall n <- Closings(c, prev, current) :: !n.NewBlock?
  {
  }

  lemma MarksAfterBlock(m: Memory, c: string, mark: int, answer: Option<Block>)
    ensures Marks(AfterBlock(m, c, mark, answer).published) == Marks(m.published) + if answer.Some? then [(c, mark)] else []
  {
    if answer.Some? {
      var one, two := NewBlock(c, mark, answer.value), Online(c);
      MarksAppend(m.published, one);
      MarksAppend(m.published + [one], two);
      assert m.published + [one, two] == m.published + [one] + [two];
    }
  }

  /** The recorded height a poll is fetching the block for. */
  ghost predicate Holds(s: State, p: nat, x: (string, int)) {
    Awaiting(s, p) && s.polls[p].stage.AwaitBlock? && x == (Chain(s, p), s.polls[p].stage.mark)
  }

  /** Each recorded height is held by at most one poll, or its block was published once, or neither. */
  ghost predicate Accounted(s: State) {
    && Rising(s.recorded)
    && (forall x <- s.recorded :: x.1 <= HeightOf(s.memory, x.0))
    && (forall p <- s.polls :: p < s.nextPoll)
    && (forall p, x :: Holds(s, p, x) ==> x in s.recorded && x !in Marks(s.memory.published))
    && (forall p, q, x :: Holds(s, p, x) && Holds(s, q, x) ==> p == q)
    && (forall x <- Marks(s.memory.published) :: x in s.recorded)
    && (var ms := Marks(s.memory.published); forall i, j :: 0 <= i < j < |ms| ==> ms[i] != ms[j])
  }

  lemma RisingSnoc(ms: seq<(string, int)>, x: (string, int))
    requires Rising(ms)
    ensures Rising(ms + [x]) <==> forall y <- ms :: y.0 == x.0 ==> y.1 < x.1
  {
    var all := ms + [x];
    if Rising(all) {
      forall y | y in ms && y.0 == x.0 ensures y.1 < x.1 {
        var i :| 0 <= i < |ms| && ms[i] == y;
        assert all[i] == y && all[|ms|] == x;
      }
    }
    if forall y <- ms :: y.0 == x.0 ==> y.1 < x.1 {
      forall i, j | 0 <= i < j < |all| && all[i].0 == all[j].0 ensures all[i].1 < all[j].1 {
        assert all[i] == ms[i] && ms[i] in ms;
      }
    }
  }

  lemma AccountedHeight(s: State, p: nat, height: Option<int>)
    requires Accounted(s)
    ensures Accounted(Next(s, HeightAnswer(p, height)))
  {
    hide Marks, Rising;
    var t := Next(s, HeightAnswer(p, height));
    if Awaiting(s, p) && s.polls[p].stage.AwaitHeight? {
      forall q, x | Holds(t, q, x) && q != p ensures Holds(s, q, x) {
      }
      if IsNewer(s.memory, Chain(s, p), height) {
        var latest := (Chain(s, p), height.value);
        assert latest !in s.recorded;
        RisingSnoc(s.recorded, latest);
        assert forall x <- t.recorded :: x in s.recorded || x == latest;
        assert forall x <- s.recorded :: x in t.recorded;
      }
    }
  }

  lemma AccountedBlock(s: State, p: nat, block: Option<Block>)
    requires Accounted(s)
    ensures Accounted(Next(s, BlockAnswer(p, block)))
  {
    var t := Next(s, BlockAnswer(p, block));
    if Awaiting(s, p) && s.polls[p].stage.AwaitBlock? {
      var x := (Chain(s, p), s.polls[p].stage.mark);
      assert Holds(s, p, x);
      MarksAfterBlock(s.memory, x.0, x.1, block);
      forall q, y | Holds(t, q, y) ensures Holds(s, q, y) && y != x {
        assert q != p;
        assert Holds(s, q, y);
        assert y == x ==> Holds(s, q, x);
      }
    }
  }

  lemma AccountedAlerts(s: State, p: nat, ids: Option<seq<nat>>)
    requires Accounted(s)
    ensures Accounted(Next(s, AlertsAnswer(p, ids)))
  {
    hide Marks, Openings, Closings, Unique, Rising;
    var t := Next(s, AlertsAnswer(p, ids));
    if Awaiting(s, p) && s.polls[p].stage.AwaitAlerts? {
      MarksAfterAlerts(s.memory, Chain(s, p), ids);
      forall q, y | Holds(t, q, y) ensures Holds(s, q, y) {
      }
    }
  }

  lemma AccountedOther(s: State, a: Action)
    requires Accounted(s) && (a.Tick? || a.Throws?)
    ensures Accounted(Next(s, a))
  {
    var t := Next(s, a);
    forall q, y | Holds(t, q, y) ensures Holds(s, q, y) {
    }
  }

  /**
   * Recorded heights of a chain strictly increase, and every published block was fetched for a recorded
   * height of its own: no recorded height is published twice, however polls overlap.
   */
  lemma {:induction false} OneBlockPerRecordedHeight(chains: seq<string>, heights: map<string, int>, ids: map<string, seq<nat>>, acts: seq<Action>)
    ensures Accounted(Run(Started(chains, heights, ids), acts))
  {
    if acts != [] {
      OneBlockPerRecordedHeight(chains, heights, ids, acts[..|acts| - 1]);
      var s := Run(Started(chains, heights, ids), acts[..|acts| - 1]);
      match acts[|acts| - 1]
      case HeightAnswer(p, height) => AccountedHeight(s, p, height);
      case BlockAnswer(p, block) => AccountedBlock(s, p, block);
      case AlertsAnswer(p, current) => AccountedAlerts(s, p, current);
      case _ => AccountedOther(s, acts[|acts| - 1]);
    }
  }

  // ---- publication order --------------------------------------------------

  /** No higher recorded height of the chain was published while this poll waited for its block. */
  ghost predicate NotOvertaken(s: State, a: Action) {
    a.BlockAnswer? && a.block.Some? && Awaiting(s, a.poll) && s.polls[a.poll].stage.AwaitBlock? ==>
      forall y <- Marks(s.memory.published) :: y.0 == Chain(s, a.poll) ==> y.1 < s.polls[a.poll].stage.mark
  }

  /** How a step changes what was published: only a block that arrives adds a mark. */
  lemma MarksStep(s: State, a: Action)
    ensures
      var adds := a.BlockAnswer? && a.block.Some? && Awaiting(s, a.poll) && s.polls[a.poll].stage.AwaitBlock?;
      Marks(Next(s, a).memory.published) ==
        Marks(s.memory.published) + if adds then [(Chain(s, a.poll), s.polls[a.poll].stage.mark)] else []
  {
    hide Marks, AfterAlerts, AfterBlock;
    match a
    case BlockAnswer(p, block) =>
      if Awaiting(s, p) && s.polls[p].stage.AwaitBlock? {
        MarksAfterBlock(s.memory, Chain(s, p), s.polls[p].stage.mark, block);
      }
    case AlertsAnswer(p, ids) =>
      if Awaiting(s, p) && s.polls[p].stage.AwaitAlerts? {
        MarksAfterAlerts(s.memory, Chain(s, p), ids);
      }
    case _ =>
  }

  lemma OrderStep(s: State, a: Action)
    ensures Rising(Marks(Next(s, a).memory.published)) <==> Rising(Marks(s.memory.published)) && NotOvertaken(s, a)
  {
    hide Marks, Next;
    MarksStep(s, a);
    var ms, more := Marks(s.memory.published), Marks(Next(s, a).memory.published);
    if Rising(more) {
      assert forall i :: 0 <= i < |ms| ==> more[i] == ms[i];
      assert Rising(ms);
    }
    if Rising(ms) && more != ms {
      RisingSnoc(ms, more[|ms|]);
    }
  }

  ghost predicate NeverOvertaken(s: State, acts: seq<Action>) {
    forall n :: 0 <= n < |acts| ==> NotOvertaken(Run(s, acts[..n]), acts[n])
  }

  lemma {:induction false} NeverOvertakenSnoc(s: State, acts: seq<Action>)
    requires acts != []
    ensures
      var before := acts[..|acts| - 1];
      NeverOvertaken(s, acts) <==> NeverOvertaken(s, before) && NotOvertaken(Run(s, before), acts[|acts| - 1])
  {
    hide Run, NotOvertaken;
    var before := acts[..|acts| - 1];
    assert forall n :: 0 <= n < |before| ==> before[..n] == acts[..n] && before[n] == acts[n];
    if NeverOvertaken(s, acts) {
      forall n | 0 <= n < |before| ensures NotOvertaken(Run(s, before[..n]), before[n]) {
        assert NotOvertaken(Run(s, acts[..n]), acts[n]);
      }
    }
    if NeverOvertaken(s, before) && NotOvertaken(Run(s, before), acts[|acts| - 1]) {
      forall n | 0 <= n < |acts| ensures NotOvertaken(Run(s, acts[..n]), acts[n]) {
        if n < |before| {
          assert NotOvertaken(Run(s, before[..n]), before[n]);
        }
      }
    }
  }

  /**
   * Over every run, a chain's blocks are published in the order their heights were recorded if and only
   * if no block arrives after that of a higher recorded height of its chain.
   */
  lemma {:induction false} InOrderIff(chains: seq<string>, heights: map<string, int>, unclosed: map<string, seq<nat>>, acts: seq<Action>)
    ensures
      var s0 := Started(chains, heights, unclosed);
      Rising(Marks(Run(s0, acts).memory.published)) <==> NeverOvertaken(s0, acts)
  {
    var s0 := Started(chains, heights, unclosed);
    if acts != [] {
      hide Next, Rising, NotOvertaken, NeverOvertaken, Marks, Started;
      var before := acts[..|acts| - 1];
      InOrderIff(chains, heights, unclosed, before);
      OrderStep(Run(s0, before), acts[|acts| - 1]);
      NeverOvertakenSnoc(s0, acts);
    }
  }

  /** No two polls are fetching a block of the same chain. */
  ghost predicate Alone(s: State) {
    forall p, q, x, y :: Holds(s, p, x) && Holds(s, q, y) && x.0 == y.0 ==> p == q
  }

  /** Every height a poll holds is above all those of its chain already published. */
  ghost predicate Ahead(s: State) {
    forall p, x, y :: Holds(s, p, x) && y in Marks(s.memory.published) && y.0 == x.0 ==> y.1 < x.1
  }

  lemma AheadStep(s: State, a: Action)
    requires Accounted(s) && Ahead(s) && Alone(s)
    ensures Ahead(Next(s, a))
  {
    hide Marks, Rising, AfterAlerts, AfterBlock;
    MarksStep(s, a);
    var t := Next(s, a);
    forall p, x | Holds(t, p, x)
      ensures Holds(s, p, x) || forall y <- Marks(s.memory.published) :: y.0 == x.0 ==> y.1 < x.1
    {
      if !Holds(s, p, x) {
        assert a == HeightAnswer(p, Some(x.1)) && x.1 > HeightOf(s.memory, x.0);
      }
    }
    if a.BlockAnswer? && Awaiting(s, a.poll) && s.polls[a.poll].stage.AwaitBlock? {
      var z := (Chain(s, a.poll), s.polls[a.poll].stage.mark);
      assert Holds(s, a.poll, z);
      forall p, x | Holds(t, p, x) ensures x.0 != z.0 {
        assert p != a.poll && Holds(s, p, x);
      }
    }
  }

  /** Overlap is harmless as long as no two polls fetch a block of the same chain at once. */
  lemma {:induction false} InOrderUnlessSharing(chains: seq<string>, heights: map<string, int>, unclosed: map<string, seq<nat>>, acts: seq<Action>)
    requires forall n :: 0 <= n <= |acts| ==> Alone(Run(Started(chains, heights, unclosed), acts[..n]))
    ensures Rising(Marks(Run(Started(chains, heights, unclosed), acts).memory.published))
    ensures Ahead(Run(Started(chains, heights, unclosed), acts))
  {
    assert Rising(Marks([]));
    hide Next, Rising, Marks, Alone, Accounted;
    if acts != [] {
      var before, a := acts[..|acts| - 1], acts[|acts| - 1];
      var s0 := Started(chains, heights, unclosed);
      forall n | 0 <= n <= |before| ensures Alone(Run(s0, before[..n])) {
        assert before[..n] == acts[..n];
      }
      assert before[..|before|] == before;
      InOrderUnlessSharing(chains, heights, unclosed, before);
      OneBlockPerRecordedHeight(chains, heights, unclosed, before);
      var s := Run(s0, before);
      AheadStep(s, a);
      OrderStep(s, a);
      if a.BlockAnswer? && Awaiting(s, a.poll) && s.polls[a.poll].stage.AwaitBlock? {
        assert Holds(s, a.poll, (Chain(s, a.poll), s.polls[a.poll].stage.mark));
      }
    }
  }

  /** In any reachable state, two polls that hold heights of one chain can publish them the wrong way round. */
  lemma SharersCanReorder(s: State, p: nat, q: nat, x: (string, int), y: (string, int), older: Block, newer: Block)
    requires Accounted(s) && Holds(s, p, x) && Holds(s, q, y) && x.0 == y.0 && x.1 < y.1
    ensures !Rising(Marks(Next(Next(s, BlockAnswer(q, Some(newer))), BlockAnswer(p, Some(older))).memory.published))
  {
    hide Marks, Rising, AfterBlock;
    assert p != q;
    var t := Next(s, BlockAnswer(q, Some(newer)));
    MarksStep(s, BlockAnswer(q, Some(newer)));
    var ms := Marks(t.memory.published);
    assert ms[|ms| - 1] == y && y in ms;
    OrderStep(t, BlockAnswer(p, Some(older)));
    assert Holds(t, p, x);
  }

  /** Overlapping polls can publish a newer block first: the second poll's answer overtakes the first one's. */
  lemma {:induction false} OverlapReorders(c: string, ten: Block, twelve: Block)
    ensures
      var acts := [Tick, HeightAnswer(0, Some(10)), Tick, HeightAnswer(1, Some(12)), BlockAnswer(1, Some(twelve)), BlockAnswer(0, Some(ten))];
      var s := Run(Started([c], map[], map[]), acts);
      && s.recorded == [(c, 10), (c, 12)]
      && s.memory.published == [NewBlock(c, 12, twelve), Online(c), NewBlock(c, 10, ten), Online(c)]
      && !Rising(Marks(s.memory.published))
  {
    var acts := [Tick, HeightAnswer(0, Some(10)), Tick, HeightAnswer(1, Some(12)), BlockAnswer(1, Some(twelve)), BlockAnswer(0, Some(ten))];
    BothRecorded(c);
    var waiting := [Tick, HeightAnswer(0, Some(10)), Tick, HeightAnswer(1, Some(12))];
    hide Run, Rising, Marks, Accounted, Next, Started;
    var s0 := Started([c], map[], map[]);
    RunTwo(s0, waiting, BlockAnswer(1, Some(twelve)), BlockAnswer(0, Some(ten)));
    assert waiting + [BlockAnswer(1, Some(twelve)), BlockAnswer(0, Some(ten))] == acts;
    OneBlockPerRecordedHeight([c], map[], map[], waiting);
    SharersCanReorder(Run(s0, waiting), 0, 1, (c, 10), (c, 12), ten, twelve);
    BothArrive(Run(s0, waiting), c, ten, twelve);
  }

  lemma BothArrive(s: State, c: string, ten: Block, twelve: Block)
    requires s.polls == map[0 := Poll(0, AwaitBlock(10)), 1 := Poll(0, AwaitBlock(12))] && s.memory.published == [] && s.chains == [c]
    ensures
      var t := Next(Next(s, BlockAnswer(1, Some(twelve))), BlockAnswer(0, Some(ten)));
      && t.recorded == s.recorded
      && t.memory.published == [NewBlock(c, 12, twelve), Online(c), NewBlock(c, 10, ten), Online(c)]
  {
  }

  lemma BothRecorded(c: string)
    ensures
      var s := Run(Started([c], map[], map[]), [Tick, HeightAnswer(0, Some(10)), Tick, HeightAnswer(1, Some(12))]);
      && s.polls == map[0 := Poll(0, AwaitBlock(10)), 1 := Poll(0, AwaitBlock(12))]
      && s.recorded == [(c, 10), (c, 12)] && s.memory.published == [] && s.chains == [c]
  {
    var s0 := Started([c], map[], map[]);
    var first := [Tick, HeightAnswer(0, Some(10))];
    RunTwo(s0, [], Tick, HeightAnswer(0, Some(10)));
    assert [] + first == first;
    assert Run(s0, first).polls == map[0 := Poll(0, AwaitBlock(10))] && Run(s0, first).recorded == [(c, 10)];
    RunTwo(s0, first, Tick, HeightAnswer(1, Some(12)));
    assert first + [Tick, HeightAnswer(1, Some(12))] == [Tick, HeightAnswer(0, Some(10)), Tick, HeightAnswer(1, Some(12))];
  }

  lemma RunTwo(s: State, acts: seq<Action>, a: Action, b: Action)
    ensures Run(s, acts + [a, b]) == Next(Next(Run(s, acts), a), b)
  {
    assert (acts + [a, b])[..|acts| + 1] == acts + [a];
    assert (acts + [a])[..|acts|] == acts;
  }
}
