/** Turning the commits of one poll's slice into blocks, and deciding who is to blame for a missing vote. */
module Attribution {
  import opened Domain

  /** How the tracked validator is recognised; `trusted` is the active set cached at startup, if still believed. */
  datatype Member = Member(valconsHex: Option<string>, signer: string, trusted: Option<set<string>>)

  /** What a commit says about the validator on its own. */
  datatype Verdict =
    | Settled(signed: int, signature: Option<string>, precommitted: Option<bool>)
    | Doubtful

  function FindVote(votes: seq<Option<Vote>>, address: Option<string>): Option<Vote> {
    if votes == [] then None
    else if votes[0].Some? && address == Some(votes[0].value.address) then votes[0]
    else FindVote(votes[1..], address)
  }

  function VoteVerdict(v: Vote): Verdict {
    var signed := if v.flag == 2 || v.flag == 3 then 1 else 0;
    Settled(signed, if signed == 1 then v.signature else None, Some(v.flag == 2))
  }

  const MISSED := Settled(0, None, None)

  function Trusts(who: Member): bool {
    who.trusted.Some? && who.valconsHex.GetOr("") in who.trusted.value
  }

  function Judge(commit: Commit, who: Member): Verdict {
    match commit.votes
    case Signatures(sigs) =>
      (match FindVote(sigs, who.valconsHex)
       case Some(v) => VoteVerdict(v)
       case None => if Trusts(who) then MISSED else Doubtful)
    case Precommits(pres) =>
      (match FindVote(pres, Some(who.signer))
       case Some(v) => VoteVerdict(v)
       case None => MISSED)
    case NoVotes => MISSED
  }

  function ToBlock(c: Commit, v: Verdict): Block
    requires v.Settled?
  {
    Block(c.height, c.time, c.hash, v.signed, v.signature, v.precommitted)
  }

  function Presence(active: bool): Verdict {
    Settled(if active then 0 else -1, None, None)
  }

  // ---- what a label means -------------------------------------------------

  /** Position i holds the first vote of that address. */
  ghost predicate FirstVoteAt(votes: seq<Option<Vote>>, address: Option<string>, i: int) {
    && 0 <= i < |votes| && votes[i].Some? && address == Some(votes[i].value.address)
    && (forall j :: 0 <= j < i && votes[j].Some? ==> address != Some(votes[j].value.address))
  }

  /** The entry of the tracked validator: by consensus address in a Cosmos commit, by signing address in a TM2 commit. */
  ghost predicate EntryAt(c: Commit, valconsHex: Option<string>, signer: string, i: int) {
    match c.votes
    case Signatures(sigs) => FirstVoteAt(sigs, valconsHex, i)
    case Precommits(pres) => FirstVoteAt(pres, Some(signer), i)
    case NoVotes => false
  }

  ghost predicate HasEntry(c: Commit, valconsHex: Option<string>, signer: string) {
    exists i :: EntryAt(c, valconsHex, signer, i)
  }

  function EntryIn(c: Commit, i: int): Option<Vote> {
    match c.votes
    case Signatures(sigs) => if 0 <= i < |sigs| then sigs[i] else None
    case Precommits(pres) => if 0 <= i < |pres| then pres[i] else None
    case NoVotes => None
  }

  /**
   * The label follows the validator's own entry: signed for a commit or nil vote, precommitted for a commit
   * vote, with that entry's signature. Without an entry nothing is recorded, and it is a miss unless it is
   * a Cosmos commit, in which the validator may have been out of the set.
   */
  ghost predicate Labelled(b: Block, c: Commit, valconsHex: Option<string>, signer: string) {
    && (b.signed == 1 <==> exists i :: EntryAt(c, valconsHex, signer, i) && (EntryIn(c, i).value.flag == 2 || EntryIn(c, i).value.flag == 3))
    && (b.precommitted == Some(true) <==> exists i :: EntryAt(c, valconsHex, signer, i) && EntryIn(c, i).value.flag == 2)
    && (b.precommitted == None <==> !HasEntry(c, valconsHex, signer))
    && (forall i :: EntryAt(c, valconsHex, signer, i) ==>
          b.signature == (if b.signed == 1 then EntryIn(c, i).value.signature else None))
    && (!HasEntry(c, valconsHex, signer) ==> b.signature == None)
    && (b.signed == -1 || b.signed == 0 || b.signed == 1)
    && (b.signed == -1 ==> c.votes.Signatures? && !HasEntry(c, valconsHex, signer))
  }

  lemma {:induction false} FindsFirst(votes: seq<Option<Vote>>, address: Option<string>)
    ensures FindVote(votes, address).Some? <==> exists i :: FirstVoteAt(votes, address, i)
    ensures forall i :: FirstVoteAt(votes, address, i) ==> votes[i] == FindVote(votes, address)
  {
    if votes != [] {
      var rest := votes[1..];
      FindsFirst(rest, address);
      if votes[0].Some? && address == Some(votes[0].value.address) {
        assert FirstVoteAt(votes, address, 0);
      } else {
        forall i: int | FirstVoteAt(votes, address, i) ensures i > 0 && FirstVoteAt(rest, address, i - 1) {
          forall j | 0 <= j < i - 1 && rest[j].Some? ensures address != Some(rest[j].value.address) {
            assert rest[j] == votes[j + 1];
          }
        }
        forall i | FirstVoteAt(rest, address, i) ensures FirstVoteAt(votes, address, i + 1) {
          assert forall j :: 0 < j < i + 1 ==> votes[j] == rest[j - 1];
        }
      }
    }
  }

  /** The verdict on a commit labels its block by the validator's own entry; only a Cosmos commit without one is in doubt. */
  lemma JudgeLabels(c: Commit, who: Member)
    ensures Judge(c, who).Settled? ==> Labelled(ToBlock(c, Judge(c, who)), c, who.valconsHex, who.signer)
    ensures Judge(c, who).Doubtful? <==> c.votes.Signatures? && !HasEntry(c, who.valconsHex, who.signer) && !Trusts(who)
    ensures Voiceless(c, who) <==> c.votes.Signatures? && !HasEntry(c, who.valconsHex, who.signer)
    ensures Voiceless(c, who) && Trusts(who) ==> Judge(c, who) == MISSED
    ensures forall active :: Voiceless(c, who) ==> Labelled(ToBlock(c, Presence(active)), c, who.valconsHex, who.signer)
  {
    hide FindVote;
    match c.votes
    case Signatures(sigs) =>
      FindsFirst(sigs, who.valconsHex);
      EntriesAre(c, who, FindVote(sigs, who.valconsHex));
    case Precommits(pres) =>
      FindsFirst(pres, Some(who.signer));
      EntriesAre(c, who, FindVote(pres, Some(who.signer)));
    case NoVotes =>
      EntriesAre(c, who, None);
  }

  lemma EntriesAre(c: Commit, who: Member, found: Option<Vote>)
    requires match c.votes
             case Signatures(sigs) =>
               && (found.Some? <==> exists i :: FirstVoteAt(sigs, who.valconsHex, i))
               && (forall i :: FirstVoteAt(sigs, who.valconsHex, i) ==> sigs[i] == found)
             case Precommits(pres) =>
               && (found.Some? <==> exists i :: FirstVoteAt(pres, Some(who.signer), i))
               && (forall i :: FirstVoteAt(pres, Some(who.signer), i) ==> pres[i] == found)
             case NoVotes => found == None
    ensures found.Some? <==> HasEntry(c, who.valconsHex, who.signer)
    ensures forall i :: EntryAt(c, who.valconsHex, who.signer, i) ==> EntryIn(c, i) == found
  {
    hide FirstVoteAt;
    match c.votes
    case Signatures(sigs) =>
      if i :| FirstVoteAt(sigs, who.valconsHex, i) {
        assert EntryAt(c, who.valconsHex, who.signer, i);
      }
      InBounds(sigs, who.valconsHex);
    case Precommits(pres) =>
      if i :| FirstVoteAt(pres, Some(who.signer), i) {
        assert EntryAt(c, who.valconsHex, who.signer, i);
      }
      InBounds(pres, Some(who.signer));
    case NoVotes =>
  }

  lemma InBounds(votes: seq<Option<Vote>>, address: Option<string>)
    ensures forall i :: FirstVoteAt(votes, address, i) ==> 0 <= i < |votes|
  {
  }

  // ---- the per-poll memo --------------------------------------------------

  /** value: the memoised answer; current: the validator's status as of this poll, or the last known one. */
  datatype Cache = Cache(value: Option<bool>, current: Option<bool>)

  /** The answer one lookup gives by itself: a failed one falls back to the last known status. */
  function Fresh(current: Option<bool>, l: Lookup): bool {
    if l.Unavailable? then current.GetOr(true) else IsActive(l)
  }

  /** A lookup with this answer is the last one of the poll. */
  predicate Memoises(current: Option<bool>, l: Lookup) {
    l.Unavailable? || current.None? || current.value == IsActive(l)
  }

  function Resolve(cache: Cache, l: Lookup): (bool, Cache) {
    if cache.value.Some? then (cache.value.value, cache)
    else
      var active := Fresh(cache.current, l);
      (active, if Memoises(cache.current, l) then cache.(value := Some(active)) else cache)
  }

  class FallbackCache {
    var value: Option<bool>
    const current: Option<bool>

    constructor (current: Option<bool>)
      ensures Contents() == Cache(None, current)
    {
      this.value, this.current := None, current;
    }

    ghost function Contents(): Cache
      reads this
    {
      Cache(value, current)
    }
  }

  method ResolveActiveFallback(height: int, lookup: int -> Lookup, cache: FallbackCache) returns (active: bool)
    modifies cache
    ensures (active, cache.Contents()) == Resolve(old(cache.Contents()), lookup(height))
  {
    if cache.value.Some? {
      return cache.value.value;
    }
    var answer := lookup(height);
    if answer.Unavailable? {
      var assumed := cache.current.GetOr(true);
      cache.value := Some(assumed);
      return assumed;
    }
    active := !answer.jailed && answer.bondStatus == BONDED;
    if cache.current.None? || cache.current.value == active {
      cache.value := Some(active);
    }
  }

  // ---- the slice ----------------------------------------------------------

  /** Everything the outside world answers while one slice is collected. */
  datatype Slice = Slice(who: Member, allowGaps: bool, commit: int -> CommitAnswer, lookup: int -> Lookup)

  datatype Collected = Collected(blocks: seq<Block>, skipped: map<int, CommitAnswer>, lookups: nat)

  const NOTHING := Collected([], map[], 0)

  /** What happens to one height of a slice. */
  datatype Fate = Halt | Skip | Keep(commit: Commit)

  function FateOf(s: Slice, h: int): Fate {
    match s.commit(h)
    case Unfetched => if s.allowGaps then Skip else Halt
    case Fetched(c, convertible) =>
      if c.canonical == Some(false) then Halt
      else if convertible then Keep(c)
      else if s.allowGaps then Skip else Halt
  }

  function Collect(s: Slice, h: int, last: int, cache: Cache): Collected
    decreases last - h + 1
  {
    if h > last then NOTHING
    else match FateOf(s, h)
      case Halt => NOTHING
      case Skip =>
        var rest := Collect(s, h + 1, last, cache);
        rest.(skipped := map[h := s.commit(h)] + rest.skipped)
      case Keep(c) =>
        var verdict := Judge(c, s.who);
        if verdict.Settled? then
          var rest := Collect(s, h + 1, last, cache);
          rest.(blocks := [ToBlock(c, verdict)] + rest.blocks)
        else
          var (active, after) := Resolve(cache, s.lookup(c.height));
          var rest := Collect(s, h + 1, last, after);
          Collected([ToBlock(c, Presence(active))] + rest.blocks, rest.skipped,
                    rest.lookups + if cache.value.None? then 1 else 0)
  }

  method CommitToBlock(c: Commit, who: Member, lookup: int -> Lookup, cache: FallbackCache) returns (b: Block)
    modifies cache
    ensures
      var v := Judge(c, who);
      if v.Settled? then b == ToBlock(c, v) && cache.Contents() == old(cache.Contents())
      else
        var (active, after) := Resolve(old(cache.Contents()), lookup(c.height));
        b == ToBlock(c, Presence(active)) && cache.Contents() == after
    ensures Labelled(b, c, who.valconsHex, who.signer)
  {
    JudgeLabels(c, who);
    hide Labelled;
    var signed := 0;
    var signature: Option<string> := None;
    var precommitted: Option<bool> := None;
    if c.votes.Signatures? {
      var sig := FindVote(c.votes.sigs, who.valconsHex);
      if sig.Some? {
        precommitted := Some(sig.value.flag == 2);
        signed := if sig.value.flag == 2 || sig.value.flag == 3 then 1 else 0;
        if signed == 1 { signature := sig.value.signature; }
      } else if Trusts(who) {
        signed := 0;
      } else {
        var active := ResolveActiveFallback(c.height, lookup, cache);
        signed := if active then 0 else -1;
      }
    } else if c.votes.Precommits? {
      var pre := FindVote(c.votes.pres, Some(who.signer));
      if pre.Some? {
        precommitted := Some(pre.value.flag == 2);
        signed := if pre.value.flag == 2 || pre.value.flag == 3 then 1 else 0;
        if signed == 1 { signature := pre.value.signature; }
      }
    }
    b := Block(c.height, c.time, c.hash, signed, signature, precommitted);
  }

  /** `blocks` and `skipped` followed by what is left of the slice make up all of it. */
  ghost predicate SplitsAt(all: Collected, blocks: seq<Block>, skipped: map<int, CommitAnswer>, rest: Collected) {
    all.blocks == blocks + rest.blocks && all.skipped == skipped + rest.skipped
  }

  lemma SkipStep(s: Slice, h: int, last: int, cache: Cache, all: Collected, blocks: seq<Block>, skipped: map<int, CommitAnswer>)
    requires h <= last && FateOf(s, h).Skip?
    requires SplitsAt(all, blocks, skipped, Collect(s, h, last, cache))
    ensures SplitsAt(all, blocks, skipped[h := s.commit(h)], Collect(s, h + 1, last, cache))
  {
    var rest := Collect(s, h + 1, last, cache);
    assert skipped + (map[h := s.commit(h)] + rest.skipped) == skipped[h := s.commit(h)] + rest.skipped;
  }

  lemma KeepStep(s: Slice, h: int, last: int, before: Cache, b: Block, after: Cache,
                 all: Collected, blocks: seq<Block>, skipped: map<int, CommitAnswer>)
    requires h <= last && FateOf(s, h).Keep?
    requires
      var c := FateOf(s, h).commit;
      var v := Judge(c, s.who);
      if v.Settled? then b == ToBlock(c, v) && after == before
      else
        var r := Resolve(before, s.lookup(c.height));
        b == ToBlock(c, Presence(r.0)) && after == r.1
    requires SplitsAt(all, blocks, skipped, Collect(s, h, last, before))
    ensures SplitsAt(all, blocks + [b], skipped, Collect(s, h + 1, last, after))
  {
    var rest := Collect(s, h + 1, last, after);
    assert Collect(s, h, last, before).blocks == [b] + rest.blocks;
    assert blocks + ([b] + rest.blocks) == blocks + [b] + rest.blocks;
  }

  lemma HaltStep(s: Slice, h: int, last: int, cache: Cache)
    requires h > last || FateOf(s, h).Halt?
    ensures Collect(s, h, last, cache) == NOTHING
  {
  }

  /** The commit loop: `commits[i]` answers the request for height `first + i`. */
  method CollectBlocks(s: Slice, first: int, commits: seq<CommitAnswer>, cache: FallbackCache)
    returns (blocks: seq<Block>, skipped: map<int, CommitAnswer>)
    requires forall i :: 0 <= i < |commits| ==> commits[i] == s.commit(first + i)
    modifies cache
    ensures
      var all := Collect(s, first, first + |commits| - 1, old(cache.Contents()));
      blocks == all.blocks && skipped == all.skipped
  {
    hide Collect, Judge, Resolve;
    blocks, skipped := [], map[];
    ghost var last := first + |commits| - 1;
    ghost var all := Collect(s, first, last, cache.Contents());
    ghost var rest := all;
    var i := 0;
    while i < |commits|
      invariant 0 <= i <= |commits|
      invariant rest == Collect(s, first + i, last, cache.Contents())
      invariant SplitsAt(all, blocks, skipped, rest)
    {
      var result := commits[i];
      ghost var h := first + i;
      if result.Unfetched? {
        if s.allowGaps {
          SkipStep(s, h, last, cache.Contents(), all, blocks, skipped);
          skipped := skipped[first + i := result];
          i := i + 1;
          rest := Collect(s, first + i, last, cache.Contents());
          continue;
        }
        HaltStep(s, h, last, cache.Contents());
        break;
      }
      if result.commit.canonical == Some(false) {
        HaltStep(s, h, last, cache.Contents());
        break;
      }
      if !result.convertible {
        if s.allowGaps {
          SkipStep(s, h, last, cache.Contents(), all, blocks, skipped);
          skipped := skipped[first + i := result];
          i := i + 1;
          rest := Collect(s, first + i, last, cache.Contents());
          continue;
        }
        HaltStep(s, h, last, cache.Contents());
        break;
      }
      ghost var before := cache.Contents();
      var b := CommitToBlock(result.commit, s.who, s.lookup, cache);
      KeepStep(s, h, last, before, b, cache.Contents(), all, blocks, skipped);
      blocks := blocks + [b];
      i := i + 1;
      rest := Collect(s, first + i, last, cache.Contents());
    }
    if i == |commits| {
      HaltStep(s, first + i, last, cache.Contents());
    }
    assert rest == NOTHING;
  }

  // ---- the same slice without a memo --------------------------------------

  /** The blocks when every doubtful height gets a lookup of its own. */
  function CollectFresh(s: Slice, current: Option<bool>, h: int, last: int): seq<Block>
    decreases last - h + 1
  {
    if h > last then []
    else match FateOf(s, h)
      case Halt => []
      case Skip => CollectFresh(s, current, h + 1, last)
      case Keep(c) =>
        var verdict := Judge(c, s.who);
        [ToBlock(c, if verdict.Settled? then verdict else Presence(Fresh(current, s.lookup(c.height))))]
        + CollectFresh(s, current, h + 1, last)
  }

  /** The lookup answers for the doubtful heights of a slice, in order. */
  function Doubts(s: Slice, h: int, last: int): seq<Lookup>
    decreases last - h + 1
  {
    if h > last then []
    else match FateOf(s, h)
      case Halt => []
      case Skip => Doubts(s, h + 1, last)
      case Keep(c) =>
        (if Judge(c, s.who).Settled? then [] else [s.lookup(c.height)]) + Doubts(s, h + 1, last)
  }

  /** Once an answer is memoised, no later doubtful height would have answered differently. */
  ghost predicate SettlesOnce(current: Option<bool>, ds: seq<Lookup>) {
    forall i, j :: 0 <= i < j < |ds| && Memoises(current, ds[i]) ==> Fresh(current, ds[j]) == Fresh(current, ds[i])
  }

  lemma ConsEqual<T>(x: T, xs: seq<T>, y: T, ys: seq<T>)
    ensures [x] + xs == [y] + ys <==> x == y && xs == ys
  {
    if [x] + xs == [y] + ys {
      assert ([x] + xs)[0] == ([y] + ys)[0];
      assert ([x] + xs)[1..] == xs && ([y] + ys)[1..] == ys;
    }
  }

  lemma {:induction false} MemoisedTail(s: Slice, v: bool, current: Option<bool>, h: int, last: int)
    ensures Collect(s, h, last, Cache(Some(v), current)).blocks == CollectFresh(s, current, h, last)
            <==> forall d <- Doubts(s, h, last) :: Fresh(current, d) == v
    ensures Collect(s, h, last, Cache(Some(v), current)).lookups == 0
    decreases last - h + 1
  {
    if h <= last && !FateOf(s, h).Halt? {
      MemoisedTail(s, v, current, h + 1, last);
      if FateOf(s, h).Keep? {
        var c := FateOf(s, h).commit;
        var verdict := Judge(c, s.who);
        var d := s.lookup(c.height);
        var asked := if verdict.Settled? then verdict else Presence(Fresh(current, d));
        var memo := if verdict.Settled? then verdict else Presence(v);
        ConsEqual(ToBlock(c, memo), Collect(s, h + 1, last, Cache(Some(v), current)).blocks,
                  ToBlock(c, asked), CollectFresh(s, current, h + 1, last));
        if verdict.Doubtful? {
          assert d in Doubts(s, h, last);
        }
      }
    }
  }

  lemma SettlesOnceCons(current: Option<bool>, d: Lookup, ds: seq<Lookup>)
    ensures SettlesOnce(current, [d] + ds)
            <==> if Memoises(current, d) then forall e <- ds :: Fresh(current, e) == Fresh(current, d)
                 else SettlesOnce(current, ds)
  {
    var all := [d] + ds;
    if SettlesOnce(current, all) {
      forall j | 0 <= j < |ds| && Memoises(current, d) ensures Fresh(current, ds[j]) == Fresh(current, d) {
        assert all[0] == d && all[j + 1] == ds[j];
      }
      forall i, j | 0 <= i < j < |ds| && Memoises(current, ds[i]) ensures Fresh(current, ds[j]) == Fresh(current, ds[i]) {
        assert all[i + 1] == ds[i] && all[j + 1] == ds[j];
      }
    }
    if if Memoises(current, d) then forall e <- ds :: Fresh(current, e) == Fresh(current, d) else SettlesOnce(current, ds) {
      forall i, j | 0 <= i < j < |all| && Memoises(current, all[i]) ensures Fresh(current, all[j]) == Fresh(current, all[i]) {
        assert all[j] == ds[j - 1];
        if i > 0 { assert all[i] == ds[i - 1]; }
      }
    }
  }

  /**
   * The memo never changes a label exactly when the answers settle: from the first answer that is
   * memoised on, no later doubtful height of the slice would have answered differently.
   */
  lemma {:induction false} MemoAgreesIff(s: Slice, current: Option<bool>, h: int, last: int)
    ensures Collect(s, h, last, Cache(None, current)).blocks == CollectFresh(s, current, h, last)
            <==> SettlesOnce(current, Doubts(s, h, last))
    decreases last - h + 1
  {
    if h <= last && !FateOf(s, h).Halt? {
      MemoAgreesIff(s, current, h + 1, last);
      if FateOf(s, h).Keep? {
        var c := FateOf(s, h).commit;
        var verdict := Judge(c, s.who);
        var rest := CollectFresh(s, current, h + 1, last);
        if verdict.Settled? {
          assert Doubts(s, h, last) == Doubts(s, h + 1, last);
          ConsEqual(ToBlock(c, verdict), Collect(s, h + 1, last, Cache(None, current)).blocks, ToBlock(c, verdict), rest);
        } else {
          var d := s.lookup(c.height);
          var (active, after) := Resolve(Cache(None, current), d);
          MemoisedTail(s, active, current, h + 1, last);
          SettlesOnceCons(current, d, Doubts(s, h + 1, last));
          ConsEqual(ToBlock(c, Presence(active)), Collect(s, h + 1, last, after).blocks, ToBlock(c, Presence(active)), rest);
        }
      }
    }
  }

  function FirstMemoised(current: Option<bool>, ds: seq<Lookup>): nat {
    if ds == [] || Memoises(current, ds[0]) then 0 else 1 + FirstMemoised(current, ds[1..])
  }

  /** A slice asks once for every doubtful height before the answers settle, and once more. */
  lemma {:induction false} LookupsBounded(s: Slice, current: Option<bool>, h: int, last: int)
    ensures
      var ds := Doubts(s, h, last);
      var n := FirstMemoised(current, ds);
      Collect(s, h, last, Cache(None, current)).lookups == if n < |ds| then n + 1 else |ds|
    decreases last - h + 1
  {
    if h <= last && !FateOf(s, h).Halt? {
      LookupsBounded(s, current, h + 1, last);
      if FateOf(s, h).Keep? {
        var c := FateOf(s, h).commit;
        if Judge(c, s.who).Settled? {
          assert Doubts(s, h, last) == Doubts(s, h + 1, last);
        } else {
          var d := s.lookup(c.height);
          MemoisedTail(s, Fresh(current, d), current, h + 1, last);
          assert Doubts(s, h, last)[1..] == Doubts(s, h + 1, last);
        }
      }
    }
  }

  // ---- against the validator's true activity ------------------------------

  /** The label a commit deserves when the validator's activity at each height is known. */
  function TrueBlocks(s: Slice, active: int -> bool, h: int, last: int): seq<Block>
    decreases last - h + 1
  {
    if h > last then []
    else match FateOf(s, h)
      case Halt => []
      case Skip => TrueBlocks(s, active, h + 1, last)
      case Keep(c) =>
        [ToBlock(c, if Voiceless(c, s.who) then Presence(active(c.height)) else Judge(c, s.who))]
        + TrueBlocks(s, active, h + 1, last)
  }

  /** A Cosmos commit in which the validator has no entry. */
  predicate Voiceless(c: Commit, who: Member)
    ensures Judge(c, who).Doubtful? ==> Voiceless(c, who)
  {
    c.votes.Signatures? && FindVote(c.votes.sigs, who.valconsHex).None?
  }

  function VoicelessHeights(s: Slice, h: int, last: int): seq<int>
    decreases last - h + 1
  {
    if h > last then []
    else match FateOf(s, h)
      case Halt => []
      case Skip => VoicelessHeights(s, h + 1, last)
      case Keep(c) => (if Voiceless(c, s.who) then [c.height] else []) + VoicelessHeights(s, h + 1, last)
  }

  /** Where among these heights the first lookup is whose answer is memoised. */
  function FirstSettled(s: Slice, current: Option<bool>, hs: seq<int>): (n: nat)
    ensures n <= |hs| && (n < |hs| ==> Memoises(current, s.lookup(hs[n])))
    ensures forall i :: 0 <= i < n ==> !Memoises(current, s.lookup(hs[i]))
  {
    if hs == [] || Memoises(current, s.lookup(hs[0])) then 0 else 1 + FirstSettled(s, current, hs[1..])
  }

  /**
   * Every height asked about, up to the first answer that is memoised, is told right (a failed lookup
   * tells the last known status), and from there on the activity does not change.
   */
  ghost predicate ToldRight(s: Slice, current: Option<bool>, active: int -> bool, hs: seq<int>) {
    var n := FirstSettled(s, current, hs);
    forall i :: 0 <= i < |hs| ==> active(hs[i]) == Fresh(current, s.lookup(hs[if i < n then i else n]))
  }

  lemma ToldRightCons(s: Slice, current: Option<bool>, active: int -> bool, x: int, rest: seq<int>)
    ensures
      var told := Fresh(current, s.lookup(x));
      ToldRight(s, current, active, [x] + rest)
      <==> active(x) == told
           && if Memoises(current, s.lookup(x)) then forall y <- rest :: active(y) == told else ToldRight(s, current, active, rest)
  {
    var all := [x] + rest;
    assert all[1..] == rest;
    var n, m := FirstSettled(s, current, all), FirstSettled(s, current, rest);
    assert n == if Memoises(current, s.lookup(x)) then 0 else m + 1;
    if ToldRight(s, current, active, all) {
      assert active(all[0]) == Fresh(current, s.lookup(x));
      forall i | 0 <= i < |rest| ensures active(rest[i]) == Fresh(current, s.lookup(all[if i + 1 < n then i + 1 else n])) {
        assert all[i + 1] == rest[i];
      }
    }
    if active(x) == Fresh(current, s.lookup(x))
       && if Memoises(current, s.lookup(x)) then forall y <- rest :: active(y) == active(x) else ToldRight(s, current, active, rest)
    {
      forall i | 0 <= i < |all| ensures active(all[i]) == Fresh(current, s.lookup(all[if i < n then i else n])) {
        if i > 0 {
          assert all[i] == rest[i - 1];
        }
      }
    }
  }

  lemma {:induction false} MemoisedTruth(s: Slice, v: bool, current: Option<bool>, active: int -> bool, h: int, last: int)
    requires !Trusts(s.who)
    ensures Collect(s, h, last, Cache(Some(v), current)).blocks == TrueBlocks(s, active, h, last)
            <==> forall x <- VoicelessHeights(s, h, last) :: active(x) == v
    decreases last - h + 1
  {
    if h <= last && !FateOf(s, h).Halt? {
      MemoisedTruth(s, v, current, active, h + 1, last);
      if FateOf(s, h).Keep? {
        var c := FateOf(s, h).commit;
        var memo := if Voiceless(c, s.who) then Presence(v) else Judge(c, s.who);
        var truth := if Voiceless(c, s.who) then Presence(active(c.height)) else Judge(c, s.who);
        ConsEqual(ToBlock(c, memo), Collect(s, h + 1, last, Cache(Some(v), current)).blocks,
                  ToBlock(c, truth), TrueBlocks(s, active, h + 1, last));
        if Voiceless(c, s.who) {
          assert c.height in VoicelessHeights(s, h, last);
        }
      }
    }
  }

  lemma {:induction false} LookedUpLabels(s: Slice, current: Option<bool>, active: int -> bool, h: int, last: int)
    requires !Trusts(s.who)
    ensures Collect(s, h, last, Cache(None, current)).blocks == TrueBlocks(s, active, h, last)
            <==> ToldRight(s, current, active, VoicelessHeights(s, h, last))
    decreases last - h + 1
  {
    if h <= last && !FateOf(s, h).Halt? {
      LookedUpLabels(s, current, active, h + 1, last);
      if FateOf(s, h).Keep? {
        hide ToldRight, Judge;
        var c := FateOf(s, h).commit;
        var truths, rest := TrueBlocks(s, active, h + 1, last), VoicelessHeights(s, h + 1, last);
        VoicelessIsDoubtful(c, s.who);
        if Voiceless(c, s.who) {
          var (told, after) := Resolve(Cache(None, current), s.lookup(c.height));
          MemoisedTruth(s, told, current, active, h + 1, last);
          ToldRightCons(s, current, active, c.height, rest);
          ConsEqual(ToBlock(c, Presence(told)), Collect(s, h + 1, last, after).blocks,
                    ToBlock(c, Presence(active(c.height))), truths);
        } else {
          var v := Judge(c, s.who);
          assert VoicelessHeights(s, h, last) == rest;
          ConsEqual(ToBlock(c, v), Collect(s, h + 1, last, Cache(None, current)).blocks, ToBlock(c, v), truths);
        }
      }
    }
  }

  lemma VoicelessIsDoubtful(c: Commit, who: Member)
    requires !Trusts(who)
    ensures Voiceless(c, who) <==> Judge(c, who).Doubtful?
  {
  }

  lemma {:induction false} TrustedLabels(s: Slice, cache: Cache, active: int -> bool, h: int, last: int)
    requires Trusts(s.who)
    ensures Collect(s, h, last, cache).blocks == TrueBlocks(s, active, h, last)
            <==> forall x <- VoicelessHeights(s, h, last) :: active(x)
    decreases last - h + 1
  {
    if h <= last && !FateOf(s, h).Halt? {
      TrustedLabels(s, cache, active, h + 1, last);
      if FateOf(s, h).Keep? {
        var c := FateOf(s, h).commit;
        var truth := if Voiceless(c, s.who) then Presence(active(c.height)) else Judge(c, s.who);
        ConsEqual(ToBlock(c, Judge(c, s.who)), Collect(s, h + 1, last, cache).blocks,
                  ToBlock(c, truth), TrueBlocks(s, active, h + 1, last));
        if Voiceless(c, s.who) {
          assert c.height in VoicelessHeights(s, h, last);
        }
      }
    }
  }

  /**
   * Every stored label is the true one exactly when the shortcut taken is right: with a trusted startup
   * set, the validator was active at each height where it has no entry; without one, each height asked
   * about is told right and the activity does not change after the last of them. No lookup is assumed
   * to answer, or to answer truly.
   */
  lemma LabelsTrueIff(s: Slice, current: Option<bool>, active: int -> bool, h: int, last: int)
    ensures
      var hs := VoicelessHeights(s, h, last);
      Collect(s, h, last, Cache(None, current)).blocks == TrueBlocks(s, active, h, last)
      <==> if Trusts(s.who) then forall x <- hs :: active(x) else ToldRight(s, current, active, hs)
  {
    if Trusts(s.who) {
      TrustedLabels(s, Cache(None, current), active, h, last);
    } else {
      LookedUpLabels(s, current, active, h, last);
    }
  }

  /** What a lookup tells about these heights is true; one that fails does so only while the last known status still holds. */
  ghost predicate Truthful(s: Slice, current: Option<bool>, active: int -> bool, hs: seq<int>) {
    forall x <- hs :: Fresh(current, s.lookup(x)) == active(x)
  }

  /** Once the activity equals the current status it never changes again within these heights. */
  ghost predicate FlipsNoMore(current: Option<bool>, active: int -> bool, hs: seq<int>) {
    forall i, j :: 0 <= i < j < |hs| && (current.None? || active(hs[i]) == current.value) ==> active(hs[j]) == active(hs[i])
  }

  /** With truthful lookups that condition is about the validator's history alone: no flip after reaching the current status. */
  lemma ToldRightIff(s: Slice, current: Option<bool>, active: int -> bool, hs: seq<int>)
    requires Truthful(s, current, active, hs)
    ensures ToldRight(s, current, active, hs) <==> FlipsNoMore(current, active, hs)
  {
    var n := FirstSettled(s, current, hs);
    forall i | 0 <= i < |hs|
      ensures Memoises(current, s.lookup(hs[i])) <==> (current.None? || active(hs[i]) == current.value)
      ensures Fresh(current, s.lookup(hs[i])) == active(hs[i])
    {
      var x := hs[i];
      assert x in hs;
      assert Fresh(current, s.lookup(x)) == active(x);
    }
    if ToldRight(s, current, active, hs) {
      forall i, j | 0 <= i < j < |hs| && (current.None? || active(hs[i]) == current.value) ensures active(hs[j]) == active(hs[i]) {
        assert n <= i;
        assert active(hs[j]) == active(hs[n]) && active(hs[i]) == active(hs[n]);
      }
    }
  }

  /** Heights 1 to 3 without an entry, the validator being out of the set at height 2 only. */
  function TwoFlipSlice(who: Member): Slice {
    Slice(who, false,
          h => Fetched(Commit(h, 0, "", Some(true), Signatures([])), true),
          h => Validator(h == 2, BONDED))
  }

  /** With two flips inside the slice the memo blames the validator for a block it was not there to sign. */
  lemma TwoFlipsMislabel(who: Member)
    requires !Trusts(who)
    ensures Truthful(TwoFlipSlice(who), Some(true), h => h != 2, VoicelessHeights(TwoFlipSlice(who), 1, 3))
    ensures Collect(TwoFlipSlice(who), 1, 3, Cache(None, Some(true))).blocks != TrueBlocks(TwoFlipSlice(who), h => h != 2, 1, 3)
  {
    var s := TwoFlipSlice(who);
    var v := VoicelessHeights(s, 1, 3);
    assert forall h :: FateOf(s, h).Keep? && FateOf(s, h).commit.height == h && Voiceless(FateOf(s, h).commit, who);
    assert v == [1] + VoicelessHeights(s, 2, 3) == [1] + ([2] + VoicelessHeights(s, 3, 3));
    assert v[0] == 1 && v[1] == 2;
    LabelsTrueIff(s, Some(true), h => h != 2, 1, 3);
    ToldRightIff(s, Some(true), h => h != 2, v);
  }
}
