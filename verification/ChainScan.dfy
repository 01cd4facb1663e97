// One scan of the chain follower: roll the journal back to the fork point, then
// append the next canonical blocks, against a node that may answer differently
// at every call or not at all.
module ChainScan {
  import opened Common

  datatype Entry = Entry(height: nat, hash: string)

  datatype Block = Block(height: nat, hash: string, previous: string)

  // What the n-th call of a scan is answered; None is a failed call. `stores`
  // says whether the journal's database accepts the n-th write.
  datatype Script = Script(
    tip: nat -> Option<nat>,
    hash: (nat, nat) -> Option<string>,
    block: (nat, nat, string) -> Option<Block>,
    stores: nat -> bool)

  datatype Config = Config(birthday: nat, confirmations: nat)

  datatype ScanError =
    | CallFailed | WrongBlock | BirthdayNotLinked | ChainChanged | DoesNotExtend | NotStored

  // ------------------------------------------------------------- the journal

  // Heights follow one another, and each block names the one before it.
  ghost predicate Linked(blocks: seq<Entry>, previous: string -> string) {
    forall i :: 0 < i < |blocks| ==>
      blocks[i].height == blocks[i - 1].height + 1 && previous(blocks[i].hash) == blocks[i - 1].hash
  }

  ghost predicate StartsAt(blocks: seq<Entry>, birthday: nat) {
    blocks != [] ==> blocks[0].height == birthday
  }

  predicate Extends(blocks: seq<Entry>, block: Block) {
    blocks == []
    || (block.height == blocks[|blocks| - 1].height + 1 && block.previous == blocks[|blocks| - 1].hash)
  }

  class Journal {
    var blocks: seq<Entry>
    var ready: bool

    constructor (blocks: seq<Entry>)
      ensures this.blocks == blocks && !ready
    {
      this.blocks, ready := blocks, false;
    }

    function Cursor(): Option<Entry>
      reads this
    {
      if blocks == [] then None else Some(blocks[|blocks| - 1])
    }

    /** Only a block that extends the journal is ever written. */
    method Append(block: Block, stored: bool) returns (r: Result<(), ScanError>)
      modifies this`blocks
      ensures r.Ok? <==> stored && Extends(old(blocks), block)
      ensures blocks == if r.Ok? then old(blocks) + [Entry(block.height, block.hash)] else old(blocks)
    {
      var cursor := Cursor();
      if cursor.Some? && !(block.height == cursor.value.height + 1 && block.previous == cursor.value.hash) {
        return Err(DoesNotExtend);
      }
      if !stored {
        return Err(NotStored);
      }
      blocks := blocks + [Entry(block.height, block.hash)];
      return Ok(());
    }

    /** The last block goes in one transaction, or stays. */
    method RollbackOne(stored: bool) returns (r: Result<(), ScanError>)
      modifies this`blocks
      ensures r.Ok? <==> old(blocks) == [] || stored
      ensures blocks == if old(blocks) == [] || !stored then old(blocks) else old(blocks)[..|old(blocks)| - 1]
    {
      if blocks == [] {
        return Ok(());
      }
      if !stored {
        return Err(NotStored);
      }
      blocks := blocks[..|blocks| - 1];
      return Ok(());
    }
  }

  class Node {
    var calls: nat
    const script: Script

    constructor (script: Script)
      ensures calls == 0 && this.script == script
    {
      calls, this.script := 0, script;
    }

    method Tip() returns (tip: Option<nat>)
      modifies this`calls
      ensures tip == script.tip(old(calls)) && calls == old(calls) + 1
    {
      tip := script.tip(calls);
      calls := calls + 1;
    }

    // `chain.hash(height).await? == expected`, or the failure of the call.
    method Hash(height: nat) returns (hash: Option<string>)
      modifies this`calls
      ensures hash == script.hash(old(calls), height) && calls == old(calls) + 1
    {
      hash := script.hash(calls, height);
      calls := calls + 1;
    }

    method Get(height: nat, hash: string) returns (block: Option<Block>)
      modifies this`calls
      ensures block == script.block(old(calls), height, hash) && calls == old(calls) + 1
    {
      block := script.block(calls, height, hash);
      calls := calls + 1;
    }

    method Stores() returns (stored: bool)
      modifies this`calls
      ensures stored == script.stores(old(calls)) && calls == old(calls) + 1
    {
      stored := script.stores(calls);
      calls := calls + 1;
    }
  }

  // ------------------------------------------------------- what a scan means

  function Target(tip: nat, early: bool, config: Config): nat {
    if early then tip else if tip < config.confirmations - 1 then 0 else tip - (config.confirmations - 1)
  }

  // What the rollback loop leaves, when the node keeps to one chain.
  function Kept(blocks: seq<Entry>, canon: nat -> string, target: nat): (kept: seq<Entry>)
    ensures kept <= blocks
    ensures kept != [] ==>
      var last := kept[|kept| - 1]; last.height <= target && canon(last.height) == last.hash
  {
    if blocks == [] then []
    else
      var last := blocks[|blocks| - 1];
      if last.height <= target && canon(last.height) == last.hash then blocks
      else Kept(blocks[..|blocks| - 1], canon, target)
  }

  function Start(blocks: seq<Entry>, birthday: nat): nat {
    if blocks == [] then birthday else blocks[|blocks| - 1].height + 1
  }

  // The canonical blocks from `low` up to and including `high`.
  function Segment(canon: nat -> string, low: nat, high: int): (blocks: seq<Entry>)
    ensures |blocks| == if high < low then 0 else high - low + 1
    ensures forall i :: 0 <= i < |blocks| ==> blocks[i] == Entry(low + i, canon(low + i))
  {
    seq(if high < low then 0 else high - low + 1, i requires 0 <= i => Entry(low + i, canon(low + i)))
  }

  /** The journal after one scan of a node that keeps to one chain. */
  function Follow(blocks: seq<Entry>, canon: nat -> string, target: nat, birthday: nat): seq<Entry> {
    var kept := Kept(blocks, canon, target);
    kept + Segment(canon, Start(kept, birthday), Min(target, Start(kept, birthday) + 99))
  }

  // --------------------------------------------------------------- the node

  // A block's hash commits to its header, and so to the block before it.
  ghost predicate Commits(script: Script, previous: string -> string) {
    forall n: nat, height: nat, hash: string ::
      script.block(n, height, hash).Some? ==>
        script.block(n, height, hash).value.previous == previous(script.block(n, height, hash).value.hash)
  }

  // The node holds one chain for the whole scan and every write succeeds.
  ghost predicate Steady(script: Script, canon: nat -> string, previous: string -> string, tip: nat) {
    && (forall n: nat :: script.tip(n) == Some(tip))
    && (forall n: nat, height: nat :: height <= tip ==> script.hash(n, height) == Some(canon(height)))
    && (forall n: nat, height: nat :: height <= tip ==>
          script.block(n, height, canon(height)) == Some(Block(height, canon(height), previous(canon(height)))))
    && (forall n: nat :: script.stores(n))
  }

  ghost predicate ChainLinked(canon: nat -> string, previous: string -> string) {
    forall height: nat :: height > 0 ==> previous(canon(height)) == canon(height - 1)
  }

  lemma SteadyAnswers(script: Script, canon: nat -> string, previous: string -> string, tip: nat, n: nat, height: nat)
    ensures Steady(script, canon, previous, tip) ==> script.tip(n) == Some(tip) && script.stores(n)
    ensures Steady(script, canon, previous, tip) && height <= tip ==>
      && script.hash(n, height) == Some(canon(height))
      && script.block(n, height, canon(height)) == Some(Block(height, canon(height), previous(canon(height))))
  {
  }

  // Some call of the scan answered `hash` for this height.
  ghost predicate Confirmed(script: Script, entry: Entry) {
    exists n: nat :: script.hash(n, entry.height) == Some(entry.hash)
  }

  // --------------------------------------------------------------- the code

  lemma KeptStep(blocks: seq<Entry>, canon: nat -> string, target: nat)
    requires blocks != []
    ensures var last := blocks[|blocks| - 1];
      Kept(blocks, canon, target)
      == if last.height <= target && canon(last.height) == last.hash then blocks
         else Kept(blocks[..|blocks| - 1], canon, target)
  {
  }

  // `height <= scan_target && chain.hash(height).await? == hash`
  method AtFork(node: Node, cursor: Entry, target: nat,
                ghost canon: nat -> string, ghost previous: string -> string, ghost tip: nat)
    returns (r: Result<bool, ScanError>)
    modifies node`calls
    ensures r == Ok(true) ==> cursor.height <= target && Confirmed(node.script, cursor)
    ensures Steady(node.script, canon, previous, tip) && target <= tip ==>
      r == Ok(cursor.height <= target && canon(cursor.height) == cursor.hash)
  {
    hide Steady;
    if cursor.height > target {
      return Ok(false);
    }
    SteadyAnswers(node.script, canon, previous, tip, node.calls, cursor.height);
    var hash := node.Hash(cursor.height);
    if hash.None? {
      return Err(CallFailed);
    }
    return Ok(hash.value == cursor.hash);
  }

  // One turn of the rollback loop: stop here, or give up the last block.
  method RollbackTurn(node: Node, journal: Journal, target: nat,
                      ghost canon: nat -> string, ghost previous: string -> string, ghost tip: nat)
    returns (stop: Result<bool, ScanError>)
    requires journal.blocks != []
    modifies node`calls, journal`blocks
    ensures stop == Ok(true) ==> Forked(journal.blocks, node.script, target)
    ensures journal.blocks
         == if stop == Ok(false) then old(journal.blocks)[..|old(journal.blocks)| - 1] else old(journal.blocks)
    ensures Steady(node.script, canon, previous, tip) && target <= tip ==>
      && stop.Ok?
      && Kept(old(journal.blocks), canon, target)
         == if stop.value then journal.blocks else Kept(journal.blocks, canon, target)
  {
    hide Steady, Confirmed, Kept;
    KeptStep(journal.blocks, canon, target);
    stop := AtFork(node, journal.Cursor().value, target, canon, previous, tip);
    if stop == Ok(false) {
      SteadyAnswers(node.script, canon, previous, tip, node.calls, 0);
      var stored := node.Stores();
      var r := journal.RollbackOne(stored);
      if r.Err? {
        return Err(r.error);
      }
    }
  }

  /** The rollback loop: it stops at a block within the target that the node
      confirms, and with a steady node at the last such block. */
  method Rollback(node: Node, journal: Journal, target: nat,
                  ghost canon: nat -> string, ghost previous: string -> string, ghost tip: nat)
    returns (r: Result<(), ScanError>)
    modifies node`calls, journal`blocks
    ensures journal.blocks <= old(journal.blocks)
    ensures r.Ok? ==> Forked(journal.blocks, node.script, target)
    ensures Steady(node.script, canon, previous, tip) && target <= tip ==>
      r.Ok? && journal.blocks == Kept(old(journal.blocks), canon, target)
  {
    hide Steady, Kept, Forked;
    ForkedAt(node.script, target);
    KeptOfNothing(canon, target);
    ghost var before := journal.blocks;
    ghost var steady := Steady(node.script, canon, previous, tip) && target <= tip;
    while journal.blocks != []
      invariant journal.blocks <= before
      invariant steady ==> Kept(journal.blocks, canon, target) == Kept(before, canon, target)
      decreases |journal.blocks|
    {
      var stop := RollbackTurn(node, journal, target, canon, previous, tip);
      if stop.Err? {
        return Err(stop.error);
      }
      if stop.value {
        return Ok(());
      }
    }
    return Ok(());
  }

  // The journal is empty or ends in a block within the target that the node confirms.
  ghost predicate Forked(blocks: seq<Entry>, script: Script, target: nat) {
    blocks != [] ==> blocks[|blocks| - 1].height <= target && Confirmed(script, blocks[|blocks| - 1])
  }

  lemma ForkedAt(script: Script, target: nat)
    ensures Forked([], script, target)
  {
  }

  lemma KeptOfNothing(canon: nat -> string, target: nat)
    ensures Kept([], canon, target) == []
  {
  }

  // The hash the node gives for a height; `expected`, when given, must match it.
  method Check(node: Node, height: nat, expected: string, error: ScanError,
               ghost canon: nat -> string, ghost previous: string -> string, ghost tip: nat)
    returns (r: Result<(), ScanError>)
    modifies node`calls
    ensures node.calls == old(node.calls) + 1
    ensures r.Ok? <==> node.script.hash(old(node.calls), height) == Some(expected)
    ensures r.Ok? ==> Confirmed(node.script, Entry(height, expected))
    ensures Steady(node.script, canon, previous, tip) && height <= tip ==> (r.Ok? <==> expected == canon(height))
  {
    hide Steady;
    SteadyAnswers(node.script, canon, previous, tip, node.calls, height);
    var hash := node.Hash(height);
    if hash.None? {
      return Err(CallFailed);
    }
    if hash.value != expected {
      return Err(error);
    }
    return Ok(());
  }

  // The n-th and the following calls of one turn of the batch loop serve this block:
  // its hash, the block itself, the block before it when the journal is empty, and
  // then once more the hash of the tip and its own.
  ghost predicate Serves(script: Script, n: nat, first: bool, height: nat, tip: nat, tipHash: string, block: Block) {
    var again := if first && height > 0 then n + 3 else n + 2;
    && script.hash(n, height) == Some(block.hash)
    && script.block(n + 1, height, block.hash) == Some(block) && block.height == height
    && (first && height > 0 ==> script.hash(n + 2, height - 1) == Some(block.previous))
    && script.hash(again, tip) == Some(tipHash) && script.hash(again + 1, height) == Some(block.hash)
  }

  lemma ServedPrevious(script: Script, previous: string -> string, n: nat, height: nat)
    requires Commits(script, previous)
    ensures forall hash :: script.block(n, height, hash).Some? ==>
      script.block(n, height, hash).value.previous == previous(script.block(n, height, hash).value.hash)
  {
  }

  lemma LinkedTo(canon: nat -> string, previous: string -> string, height: nat)
    ensures ChainLinked(canon, previous) && height > 0 ==> previous(canon(height)) == canon(height - 1)
  {
  }

  /** The node calls of one turn of the batch loop. */
  method Fetch(node: Node, first: bool, height: nat, tip: nat, tipHash: string,
               ghost canon: nat -> string, ghost previous: string -> string)
    returns (r: Result<Block, ScanError>)
    requires Commits(node.script, previous)
    modifies node`calls
    ensures forall block :: r == Ok(block) <==>
      Serves(node.script, old(node.calls), first, height, tip, tipHash, block)
    ensures r.Ok? ==>
      && r.value.height == height && r.value.previous == previous(r.value.hash)
      && Confirmed(node.script, Entry(height, r.value.hash))
      && (first && height > 0 ==> Confirmed(node.script, Entry(height - 1, r.value.previous)))
    ensures Steady(node.script, canon, previous, tip) && ChainLinked(canon, previous)
            && height <= tip && tipHash == canon(tip) ==>
      r == Ok(Block(height, canon(height), previous(canon(height))))
  {
    hide Steady, Confirmed, Commits, ChainLinked;
    SteadyAnswers(node.script, canon, previous, tip, node.calls, height);
    ServedPrevious(node.script, previous, node.calls + 1, height);
    LinkedTo(canon, previous, height);
    var hash := node.Hash(height);
    if hash.None? {
      return Err(CallFailed);
    }
    SteadyAnswers(node.script, canon, previous, tip, node.calls, height);
    var block := node.Get(height, hash.value);
    if block.None? {
      return Err(CallFailed);
    }
    if block.value.height != height || block.value.hash != hash.value {
      return Err(WrongBlock);
    }
    if first && height > 0 {
      var linked := Check(node, height - 1, block.value.previous, BirthdayNotLinked, canon, previous, tip);
      if linked.Err? {
        return Err(linked.error);
      }
    }
    var same := Check(node, tip, tipHash, ChainChanged, canon, previous, tip);
    if same.Err? {
      return Err(same.error);
    }
    same := Check(node, height, hash.value, ChainChanged, canon, previous, tip);
    if same.Err? {
      return Err(same.error);
    }
    return Ok(block.value);
  }

  lemma LinkedSnoc(blocks: seq<Entry>, block: Block, previous: string -> string)
    requires Linked(blocks, previous) && Extends(blocks, block) && block.previous == previous(block.hash)
    ensures Linked(blocks + [Entry(block.height, block.hash)], previous)
  {
  }

  // Where the batch loop stands: its next block extends what the journal holds.
  ghost predicate Next(blocks: seq<Entry>, canon: nat -> string, height: nat) {
    blocks == []
    || (height > 0 && blocks[|blocks| - 1] == Entry(height - 1, canon(height - 1)))
  }

  // A block that one turn served was appended, and extends what was there.
  ghost predicate ServedOnto(before: seq<Entry>, after: seq<Entry>, script: Script, n: nat, height: nat, tip: nat,
                             tipHash: string)
  {
    exists block ::
      Serves(script, n, before == [], height, tip, tipHash, block) && Extends(before, block)
      && after == before + [Entry(block.height, block.hash)]
  }

  /** One turn of the batch loop: either the next block is appended, linked to
      the journal and confirmed by the node, or nothing changes. */
  method FetchOne(node: Node, journal: Journal, height: nat, tip: nat, tipHash: string,
                  ghost canon: nat -> string, ghost previous: string -> string)
    returns (r: Result<(), ScanError>)
    requires Commits(node.script, previous) && Linked(journal.blocks, previous)
    modifies node`calls, journal`blocks
    ensures Linked(journal.blocks, previous)
    ensures r.Err? ==> journal.blocks == old(journal.blocks)
    ensures r.Ok? ==>
      ServedOnto(old(journal.blocks), journal.blocks, node.script, old(node.calls), height, tip, tipHash)
    ensures r.Ok? ==> journal.blocks != [] && var last := journal.blocks[|journal.blocks| - 1];
      && journal.blocks == old(journal.blocks) + [last]
      && last.height == height && Confirmed(node.script, last)
    ensures Steady(node.script, canon, previous, tip) && ChainLinked(canon, previous)
            && height <= tip && tipHash == canon(tip) && Next(old(journal.blocks), canon, height) ==>
      r.Ok? && journal.blocks == old(journal.blocks) + [Entry(height, canon(height))]
  {
    hide Steady, Confirmed, Commits, Linked;
    ghost var before := journal.blocks;
    var block := Fetch(node, journal.Cursor().None?, height, tip, tipHash, canon, previous);
    if block.Err? {
      return Err(block.error);
    }
    SteadyAnswers(node.script, canon, previous, tip, node.calls, height);
    var stored := node.Stores();
    r := journal.Append(block.value, stored);
    if r.Ok? {
      LinkedSnoc(before, block.value, previous);
    }
  }

  // Consecutive blocks from `low`, each confirmed by the node.
  ghost predicate Fetched(blocks: seq<Entry>, script: Script, low: nat) {
    forall i :: 0 <= i < |blocks| ==> blocks[i].height == low + i && Confirmed(script, blocks[i])
  }

  lemma NothingFetched(script: Script, canon: nat -> string, low: nat)
    ensures Fetched([], script, low) && Segment(canon, low, low - 1) == []
  {
  }

  lemma FetchedSnoc(blocks: seq<Entry>, last: Entry, script: Script, low: nat)
    requires Fetched(blocks, script, low) && last.height == low + |blocks| && Confirmed(script, last)
    ensures Fetched(blocks + [last], script, low)
  {
    hide Confirmed;
  }

  lemma SegmentSnoc(canon: nat -> string, low: nat, high: int)
    requires high >= low
    ensures Segment(canon, low, high) == Segment(canon, low, high - 1) + [Entry(high, canon(high))]
  {
  }

  lemma NextSnoc(blocks: seq<Entry>, canon: nat -> string, height: nat)
    ensures Next(blocks + [Entry(height, canon(height))], canon, height + 1)
  {
  }

  // How many blocks a batch from `start` has.
  function Batch(start: nat, target: nat): nat {
    Max(0, Min(target, start + 99) - start + 1)
  }

  lemma BatchBounds(start: nat, target: nat, height: nat)
    requires start <= height <= Max(start, Min(target, start + 99) + 1)
    ensures height - start <= Batch(start, target)
    ensures height > target || height > start + 99 ==> height - start == Batch(start, target)
  {
  }

  /** The batch loop: at most a hundred blocks, up to the target. */
  method CatchUp(node: Node, journal: Journal, start: nat, target: nat, tip: nat, tipHash: string,
                 ghost canon: nat -> string, ghost previous: string -> string)
    returns (r: Result<(), ScanError>, ghost fetched: seq<Entry>)
    requires Commits(node.script, previous) && Linked(journal.blocks, previous) && target <= tip
    modifies node`calls, journal`blocks
    ensures Linked(journal.blocks, previous)
    ensures journal.blocks == old(journal.blocks) + fetched && Fetched(fetched, node.script, start)
    ensures |fetched| <= Batch(start, target) && (r.Ok? ==> |fetched| == Batch(start, target))
    ensures Steady(node.script, canon, previous, tip) && ChainLinked(canon, previous)
            && tipHash == canon(tip) && Next(old(journal.blocks), canon, start) ==>
      r.Ok? && fetched == Segment(canon, start, Min(target, start + 99))
  {
    hide Steady, Confirmed, Commits, Linked, ChainLinked, Fetched, Segment, Next, Batch, ServedOnto;
    ghost var before := journal.blocks;
    ghost var steady := Steady(node.script, canon, previous, tip) && ChainLinked(canon, previous)
      && tipHash == canon(tip) && Next(journal.blocks, canon, start);
    fetched := [];
    var height := start;
    NothingFetched(node.script, canon, start);
    while height <= target && height <= start + 99
      invariant start <= height
      invariant Linked(journal.blocks, previous)
      invariant journal.blocks == before + fetched && |fetched| == height - start
      invariant Fetched(fetched, node.script, start)
      invariant steady ==> fetched == Segment(canon, start, height - 1) && Next(journal.blocks, canon, height)
      invariant height <= Max(start, Min(target, start + 99) + 1)
      decreases start + 100 - height
    {
      BatchBounds(start, target, height);
      r := FetchOne(node, journal, height, tip, tipHash, canon, previous);
      if r.Err? {
        return;
      }
      ghost var last := journal.blocks[|journal.blocks| - 1];
      FetchedSnoc(fetched, last, node.script, start);
      if steady {
        SegmentSnoc(canon, start, height);
        NextSnoc(before + fetched, canon, height);
      }
      assert before + fetched + [last] == before + (fetched + [last]);
      fetched := fetched + [last];
      height := height + 1;
    }
    BatchBounds(start, target, height);
    return Ok(()), fetched;
  }

  // How far a scan follows the chain, by the depth of the journal's last block: to
  // the tip itself, or to the last block with enough confirmations, if any has them.
  predicate Follows(blocks: seq<Entry>, tip: nat, early: bool, config: Config) {
    blocks != [] ==>
      var height := blocks[|blocks| - 1].height;
      height <= tip && (early || height == 0 || tip - height + 1 >= config.confirmations)
  }

  // No further block may be followed.
  predicate CaughtUp(blocks: seq<Entry>, tip: nat, early: bool, config: Config) {
    && blocks != [] && Follows(blocks, tip, early, config)
    && var next := blocks[|blocks| - 1].height + 1;
       if early then next > tip else tip - next + 1 < config.confirmations
  }

  predicate EndsAt(blocks: seq<Entry>, target: nat) {
    blocks != [] && blocks[|blocks| - 1].height == target
  }

  lemma TargetMeans(blocks: seq<Entry>, tip: nat, early: bool, config: Config)
    requires config.confirmations > 0
    ensures EndsAt(blocks, Target(tip, early, config)) <==> CaughtUp(blocks, tip, early, config)
    ensures (blocks != [] ==> blocks[|blocks| - 1].height <= Target(tip, early, config))
       <==> Follows(blocks, tip, early, config)
  {
  }

  // Readiness says that the journal is caught up with a tip the node named.
  ghost predicate AtNamedTip(blocks: seq<Entry>, script: Script, early: bool, config: Config)
    requires config.confirmations > 0
  {
    && blocks != []
    && Confirmed(script, blocks[|blocks| - 1])
    && exists n: nat :: script.tip(n).Some? && CaughtUp(blocks, script.tip(n).value, early, config)
  }

  ghost predicate EndsOnChain(blocks: seq<Entry>, canon: nat -> string, tip: nat) {
    blocks != [] ==> var last := blocks[|blocks| - 1]; last.height <= tip && last.hash == canon(last.height)
  }

  // The last checks of a scan, from its n-th call on: the tip's hash, that of the
  // journal's last block, the tip itself, and the hash of the first tip once more.
  ghost predicate Settles(script: Script, n: nat, blocks: seq<Entry>, tip: nat, tipHash: string) {
    && script.hash(n, tip) == Some(tipHash)
    && (blocks != [] ==> var last := blocks[|blocks| - 1]; script.hash(n + 1, last.height) == Some(last.hash))
    && script.tip(Verifying(n, blocks)).Some?
    && script.hash(Verifying(n, blocks) + 1, tip) == Some(tipHash)
  }

  // The call that asks for the tip again.
  function Verifying(n: nat, blocks: seq<Entry>): nat {
    if blocks == [] then n + 1 else n + 2
  }

  // A scan that settled at its n-th call: readiness is judged by the tip named last.
  ghost predicate SettledAt(script: Script, n: nat, blocks: seq<Entry>, ready: bool, tip: nat, tipHash: string,
                            early: bool, config: Config)
    requires config.confirmations > 0
  {
    && Settles(script, n, blocks, tip, tipHash)
    && (ready <==> CaughtUp(blocks, script.tip(Verifying(n, blocks)).value, early, config))
  }

  lemma ReadyNamed(blocks: seq<Entry>, script: Script, n: nat, early: bool, config: Config)
    requires config.confirmations > 0 && blocks != [] && Confirmed(script, blocks[|blocks| - 1])
    requires script.tip(n).Some? && CaughtUp(blocks, script.tip(n).value, early, config)
    ensures AtNamedTip(blocks, script, early, config)
  {
    hide Confirmed, CaughtUp;
  }

  lemma SteadySettles(script: Script, canon: nat -> string, previous: string -> string, tip: nat, n: nat,
                      blocks: seq<Entry>)
    ensures Steady(script, canon, previous, tip) && EndsOnChain(blocks, canon, tip) ==>
      Settles(script, n, blocks, tip, canon(tip)) && script.tip(Verifying(n, blocks)) == Some(tip)
  {
    hide Steady;
    SteadyAnswers(script, canon, previous, tip, n, tip);
    SteadyAnswers(script, canon, previous, tip, Verifying(n, blocks), tip);
    SteadyAnswers(script, canon, previous, tip, Verifying(n, blocks) + 1, tip);
    if blocks != [] {
      SteadyAnswers(script, canon, previous, tip, n + 1, blocks[|blocks| - 1].height);
    }
  }

  // The journal's last block is still on the chain.
  method CheckCursor(node: Node, journal: Journal,
                     ghost canon: nat -> string, ghost previous: string -> string, ghost tip: nat)
    returns (r: Result<(), ScanError>)
    modifies node`calls
    ensures node.calls == if journal.blocks == [] then old(node.calls) else old(node.calls) + 1
    ensures r.Ok? <==> (journal.blocks != [] ==>
      var last := journal.blocks[|journal.blocks| - 1];
      node.script.hash(old(node.calls), last.height) == Some(last.hash))
    ensures r.Ok? && journal.blocks != [] ==> Confirmed(node.script, journal.blocks[|journal.blocks| - 1])
  {
    hide Confirmed;
    var cursor := journal.Cursor();
    if cursor.Some? {
      r := Check(node, cursor.value.height, cursor.value.hash, ChainChanged, canon, previous, tip);
      return;
    }
    return Ok(());
  }

  method LastChecks(node: Node, journal: Journal, tip: nat, tipHash: string,
                    ghost canon: nat -> string, ghost previous: string -> string, ghost steadyTip: nat)
    returns (r: Result<nat, ScanError>)
    modifies node`calls
    ensures r.Ok? <==> Settles(node.script, old(node.calls), journal.blocks, tip, tipHash)
    ensures r.Ok? ==> node.script.tip(Verifying(old(node.calls), journal.blocks)) == Some(r.value)
    ensures r.Ok? && journal.blocks != [] ==> Confirmed(node.script, journal.blocks[|journal.blocks| - 1])
  {
    hide Confirmed, Steady;
    var same := Check(node, tip, tipHash, ChainChanged, canon, previous, steadyTip);
    if same.Err? {
      return Err(same.error);
    }
    same := CheckCursor(node, journal, canon, previous, steadyTip);
    if same.Err? {
      return Err(same.error);
    }
    var verified := node.Tip();
    if verified.None? {
      return Err(CallFailed);
    }
    same := Check(node, tip, tipHash, ChainChanged, canon, previous, steadyTip);
    if same.Err? {
      return Err(same.error);
    }
    return Ok(verified.value);
  }

  /** The last checks of a scan and the publication of readiness. */
  method Settle(node: Node, journal: Journal, early: bool, config: Config, tip: nat, tipHash: string,
                ghost canon: nat -> string, ghost previous: string -> string, ghost steadyTip: nat)
    returns (r: Result<(), ScanError>)
    requires config.confirmations > 0 && !journal.ready
    modifies node`calls, journal`ready
    ensures r.Err? ==> !journal.ready
    ensures r.Ok? <==> Settles(node.script, old(node.calls), journal.blocks, tip, tipHash)
    ensures r.Ok? ==>
      SettledAt(node.script, old(node.calls), journal.blocks, journal.ready, tip, tipHash, early, config)
    ensures journal.ready ==> AtNamedTip(journal.blocks, node.script, early, config)
    ensures Steady(node.script, canon, previous, steadyTip) && tip == steadyTip && tipHash == canon(tip)
            && EndsOnChain(journal.blocks, canon, tip) ==>
      r.Ok? && journal.ready == CaughtUp(journal.blocks, steadyTip, early, config)
  {
    hide Steady, CaughtUp, Follows, Target, Confirmed, EndsOnChain, AtNamedTip, Settles;
    SteadySettles(node.script, canon, previous, steadyTip, node.calls, journal.blocks);
    ghost var asked := Verifying(node.calls, journal.blocks);
    var verified := LastChecks(node, journal, tip, tipHash, canon, previous, steadyTip);
    if verified.Err? {
      return Err(verified.error);
    }
    var cursor := journal.Cursor();
    journal.ready := cursor.Some? && cursor.value.height == Target(verified.value, early, config);
    TargetMeans(journal.blocks, verified.value, early, config);
    if journal.ready {
      ReadyNamed(journal.blocks, node.script, asked, early, config);
    }
    return Ok(());
  }

  // One journal rebuilt from another: some of its front is kept, which ends at a block
  // the node confirms within the target if anything follows, and then the blocks of a
  // batch, all of them if the rebuilding succeeded.
  ghost predicate RebuiltFrom(kept: seq<Entry>, before: seq<Entry>, after: seq<Entry>, script: Script, target: nat,
                              birthday: nat, whole: bool)
  {
    var more := |after| - |kept|;
    && kept <= before && kept <= after
    && (whole || more > 0 ==> Forked(kept, script, target))
    && Fetched(after[|kept|..], script, Start(kept, birthday))
    && more <= Batch(Start(kept, birthday), target)
    && (whole ==> more == Batch(Start(kept, birthday), target))
  }

  ghost predicate Rebuilt(before: seq<Entry>, after: seq<Entry>, script: Script, target: nat, birthday: nat,
                          whole: bool)
  {
    exists kept :: RebuiltFrom(kept, before, after, script, target, birthday, whole)
  }

  lemma OnlyRolledBack(kept: seq<Entry>, before: seq<Entry>, script: Script, target: nat, birthday: nat)
    requires kept <= before
    ensures Rebuilt(before, kept, script, target, birthday, false)
  {
    assert kept[|kept|..] == [];
    assert RebuiltFrom(kept, before, kept, script, target, birthday, false);
  }

  lemma RolledOn(kept: seq<Entry>, before: seq<Entry>, fetched: seq<Entry>, script: Script, target: nat, birthday: nat,
                 whole: bool)
    requires kept <= before && Forked(kept, script, target) && Fetched(fetched, script, Start(kept, birthday))
    requires |fetched| <= Batch(Start(kept, birthday), target)
    requires whole ==> |fetched| == Batch(Start(kept, birthday), target)
    ensures Rebuilt(before, kept + fetched, script, target, birthday, whole)
  {
    assert (kept + fetched)[|kept|..] == fetched;
    assert RebuiltFrom(kept, before, kept + fetched, script, target, birthday, whole);
  }

  /** The writes of a scan: rollback to the fork point, then one batch. */
  method Reorganize(node: Node, journal: Journal, config: Config, target: nat, tip: nat, tipHash: string,
                    ghost canon: nat -> string, ghost previous: string -> string)
    returns (r: Result<(), ScanError>)
    requires Commits(node.script, previous) && target <= tip
    requires Linked(journal.blocks, previous) && StartsAt(journal.blocks, config.birthday)
    modifies node`calls, journal`blocks
    ensures Linked(journal.blocks, previous) && StartsAt(journal.blocks, config.birthday)
    ensures Rebuilt(old(journal.blocks), journal.blocks, node.script, target, config.birthday, r.Ok?)
    ensures Steady(node.script, canon, previous, tip) && ChainLinked(canon, previous) && tipHash == canon(tip) ==>
      r.Ok? && journal.blocks == Follow(old(journal.blocks), canon, target, config.birthday)
  {
    hide Steady, Confirmed, Commits, Linked, ChainLinked, Forked, Batch, Rebuilt;
    ghost var before := journal.blocks;
    r := Rollback(node, journal, target, canon, previous, tip);
    PrefixLinked(before, journal.blocks, previous);
    ghost var kept := journal.blocks;
    if r.Err? {
      OnlyRolledBack(kept, before, node.script, target, config.birthday);
      return;
    }
    var start := Start(journal.blocks, config.birthday);
    ghost var fetched;
    r, fetched := CatchUp(node, journal, start, target, tip, tipHash, canon, previous);
    RolledOn(kept, before, fetched, node.script, target, config.birthday, r.Ok?);
  }

  lemma PrefixLinked(before: seq<Entry>, after: seq<Entry>, previous: string -> string)
    requires Linked(before, previous) && after <= before
    ensures Linked(after, previous)
  {
  }

  // A whole batch is a batch.
  lemma RebuiltAnyway(before: seq<Entry>, after: seq<Entry>, script: Script, target: nat, birthday: nat, whole: bool)
    requires Rebuilt(before, after, script, target, birthday, whole)
    ensures Rebuilt(before, after, script, target, birthday, false)
  {
    hide Forked, Fetched, Batch;
    var kept :| RebuiltFrom(kept, before, after, script, target, birthday, whole);
    assert RebuiltFrom(kept, before, after, script, target, birthday, false);
  }

  // The tip a scan works from is what its first two calls name.
  ghost predicate Named(script: Script, n: nat) {
    script.tip(n).Some? && script.hash(n + 1, script.tip(n).value).Some?
  }

  // A scan that succeeded passed its last checks, and judged readiness by them.
  ghost predicate Concludes(script: Script, tip: nat, tipHash: string, blocks: seq<Entry>, ready: bool, early: bool,
                            config: Config)
    requires config.confirmations > 0
  {
    exists last: nat :: SettledAt(script, last, blocks, ready, tip, tipHash, early, config)
  }

  /** `scan`. Whatever the node answers, the journal stays one linked chain from
      the birthday, rebuilt behind a block the node confirms towards the tip it named
      first; a failed scan is never ready, one that succeeds fetched its whole batch
      and found that tip still standing, and readiness means that under a tip the
      node named no further block may be followed. With a steady node the scan
      succeeds, follows its chain to blocks deep enough, and is ready exactly then. */
  method Scan(node: Node, journal: Journal, early: bool, config: Config,
              ghost canon: nat -> string, ghost previous: string -> string, ghost steadyTip: nat)
    returns (r: Result<(), ScanError>)
    requires config.confirmations > 0
    requires Commits(node.script, previous)
    requires Linked(journal.blocks, previous) && StartsAt(journal.blocks, config.birthday)
    modifies node`calls, journal
    ensures Linked(journal.blocks, previous) && StartsAt(journal.blocks, config.birthday)
    ensures r.Err? ==> !journal.ready
    ensures !Named(node.script, old(node.calls)) ==> r.Err? && journal.blocks == old(journal.blocks)
    ensures Named(node.script, old(node.calls)) ==>
      Rebuilt(old(journal.blocks), journal.blocks, node.script,
              Target(node.script.tip(old(node.calls)).value, early, config), config.birthday, r.Ok?)
    ensures r.Ok? ==>
      var tip := node.script.tip(old(node.calls)).value;
      var tipHash := node.script.hash(old(node.calls) + 1, tip).value;
      Concludes(node.script, tip, tipHash, journal.blocks, journal.ready, early, config)
    ensures journal.ready ==> AtNamedTip(journal.blocks, node.script, early, config)
    ensures Steady(node.script, canon, previous, steadyTip) && ChainLinked(canon, previous) ==>
      var target := Target(steadyTip, early, config);
      && r.Ok?
      && journal.blocks == Follow(old(journal.blocks), canon, target, config.birthday)
      && Follows(journal.blocks, steadyTip, early, config)
      && journal.ready == CaughtUp(journal.blocks, steadyTip, early, config)
  {
    hide Steady, Commits, Linked, ChainLinked, StartsAt, Follow, AtNamedTip, Follows, CaughtUp, EndsOnChain,
      Rebuilt, SettledAt, Settles;
    ghost var before := journal.blocks;
    journal.ready := false;
    SteadyAnswers(node.script, canon, previous, steadyTip, node.calls, steadyTip);
    var tip := node.Tip();
    if tip.None? {
      return Err(CallFailed);
    }
    SteadyAnswers(node.script, canon, previous, steadyTip, node.calls, tip.value);
    var tipHash := node.Hash(tip.value);
    if tipHash.None? {
      return Err(CallFailed);
    }
    var target := Target(tip.value, early, config);
    FollowEndsOnChain(journal.blocks, canon, target, config.birthday, tip.value);
    TargetMeans(Follow(journal.blocks, canon, target, config.birthday), tip.value, early, config);
    r := Reorganize(node, journal, config, target, tip.value, tipHash.value, canon, previous);
    if r.Err? {
      RebuiltAnyway(before, journal.blocks, node.script, target, config.birthday, false);
      return;
    }
    RebuiltAnyway(before, journal.blocks, node.script, target, config.birthday, true);
    r := Settle(node, journal, early, config, tip.value, tipHash.value, canon, previous, steadyTip);
  }

  lemma FollowEndsOnChain(blocks: seq<Entry>, canon: nat -> string, target: nat, birthday: nat, tip: nat)
    requires target <= tip
    ensures EndsOnChain(Follow(blocks, canon, target, birthday), canon, tip)
    ensures var followed := Follow(blocks, canon, target, birthday);
      followed != [] ==> followed[|followed| - 1].height <= target
  {
  }

  // ----------------------------------------------------- what following means

  ghost predicate OnChain(entry: Entry, canon: nat -> string, target: nat) {
    entry.height <= target && entry.hash == canon(entry.height)
  }

  lemma LinkedBack(blocks: seq<Entry>, i: nat, canon: nat -> string, previous: string -> string, target: nat)
    requires Linked(blocks, previous) && ChainLinked(canon, previous)
    requires 0 < i < |blocks| && OnChain(blocks[i], canon, target)
    ensures OnChain(blocks[i - 1], canon, target)
  {
    assert blocks[i].height == blocks[i - 1].height + 1;
  }

  /** The rollback keeps exactly the blocks that are canonical and within the
      target: since both chains are linked, they are a prefix, the longest. */
  lemma {:induction false} KeptIsLongest(blocks: seq<Entry>, canon: nat -> string, previous: string -> string,
                                         target: nat)
    requires Linked(blocks, previous) && ChainLinked(canon, previous)
    ensures forall i :: 0 <= i < |blocks| ==>
      (i < |Kept(blocks, canon, target)| <==> OnChain(blocks[i], canon, target))
    decreases |blocks|
  {
    hide ChainLinked;
    if blocks != [] {
      var n := |blocks| - 1;
      PrefixLinked(blocks, blocks[..n], previous);
      KeptIsLongest(blocks[..n], canon, previous, target);
      KeptStep(blocks, canon, target);
      if OnChain(blocks[n], canon, target) {
        AllBack(blocks, n, canon, previous, target);
      } else {
        assert forall i :: 0 <= i < n ==> blocks[..n][i] == blocks[i];
      }
    }
  }

  lemma {:induction false} AllBack(blocks: seq<Entry>, n: nat, canon: nat -> string, previous: string -> string,
                                   target: nat)
    requires Linked(blocks, previous) && ChainLinked(canon, previous)
    requires n < |blocks| && OnChain(blocks[n], canon, target)
    ensures forall i :: 0 <= i <= n ==> OnChain(blocks[i], canon, target)
  {
    hide Linked, ChainLinked, OnChain;
    if n > 0 {
      LinkedBack(blocks, n, canon, previous, target);
      AllBack(blocks, n - 1, canon, previous, target);
    }
  }

  lemma {:induction false} HeightsFollow(blocks: seq<Entry>, birthday: nat, previous: string -> string, i: nat)
    requires Linked(blocks, previous) && StartsAt(blocks, birthday) && i < |blocks|
    ensures blocks[i].height == birthday + i
  {
    if i > 0 {
      HeightsFollow(blocks, birthday, previous, i - 1);
    }
  }

  lemma KeptIsSegment(blocks: seq<Entry>, canon: nat -> string, previous: string -> string, target: nat, birthday: nat)
    requires Linked(blocks, previous) && ChainLinked(canon, previous) && StartsAt(blocks, birthday)
    ensures var kept := Kept(blocks, canon, target);
      && kept == Segment(canon, birthday, Start(kept, birthday) - 1)
      && (kept != [] ==> Start(kept, birthday) - 1 <= target)
  {
    hide Linked, ChainLinked;
    var kept := Kept(blocks, canon, target);
    KeptIsLongest(blocks, canon, previous, target);
    forall i | 0 <= i < |kept| ensures kept[i] == Entry(birthday + i, canon(birthday + i)) {
      HeightsFollow(blocks, birthday, previous, i);
      assert kept[i] == blocks[i] && OnChain(blocks[i], canon, target);
    }
  }

  lemma SegmentsJoin(canon: nat -> string, low: nat, mid: nat, high: int)
    requires low <= mid && (mid <= high + 1 || low == mid)
    ensures Segment(canon, low, mid - 1) + Segment(canon, mid, high) == Segment(canon, low, high)
  {
  }

  // The last height after one scan of a batch of at most a hundred blocks.
  function Reached(kept: seq<Entry>, target: nat, birthday: nat, scans: nat): int {
    Min(target, Start(kept, birthday) + 100 * scans - 1)
  }

  /** After a scan the journal is the canonical chain from the birthday up to the
      target or a hundred blocks past the fork point, whichever comes first. */
  lemma FollowIsSegment(blocks: seq<Entry>, canon: nat -> string, previous: string -> string, target: nat,
                        birthday: nat)
    requires Linked(blocks, previous) && ChainLinked(canon, previous) && StartsAt(blocks, birthday)
    ensures Follow(blocks, canon, target, birthday)
         == Segment(canon, birthday, Reached(Kept(blocks, canon, target), target, birthday, 1))
  {
    hide Linked, ChainLinked, StartsAt, Kept, Segment;
    var kept := Kept(blocks, canon, target);
    KeptIsSegment(blocks, canon, previous, target, birthday);
    StartIsLater(kept, canon, birthday);
    SegmentsJoin(canon, birthday, Start(kept, birthday), Min(target, Start(kept, birthday) + 99));
  }

  lemma StartIsLater(kept: seq<Entry>, canon: nat -> string, birthday: nat)
    requires kept == Segment(canon, birthday, Start(kept, birthday) - 1)
    ensures birthday <= Start(kept, birthday)
    ensures kept == [] ==> Start(kept, birthday) == birthday
  {
  }

  lemma SegmentIsLinked(canon: nat -> string, previous: string -> string, birthday: nat, high: int)
    requires ChainLinked(canon, previous)
    ensures Linked(Segment(canon, birthday, high), previous) && StartsAt(Segment(canon, birthday, high), birthday)
  {
  }

  lemma SegmentIsKept(canon: nat -> string, target: nat, birthday: nat, high: int)
    requires high <= target
    ensures Kept(Segment(canon, birthday, high), canon, target) == Segment(canon, birthday, high)
  {
  }

  function Repeat(blocks: seq<Entry>, canon: nat -> string, target: nat, birthday: nat, scans: nat): seq<Entry>
    decreases scans
  {
    if scans == 0 then blocks
    else Follow(Repeat(blocks, canon, target, birthday, scans - 1), canon, target, birthday)
  }

  // One more scan of a journal that already follows the chain.
  lemma ScanAgain(canon: nat -> string, previous: string -> string, target: nat, birthday: nat, high: int)
    requires ChainLinked(canon, previous) && high <= target
    ensures Follow(Segment(canon, birthday, high), canon, target, birthday)
         == Segment(canon, birthday, Min(target, if high < birthday then birthday + 99 else high + 100))
  {
    hide ChainLinked, Linked, StartsAt, Kept, Follow;
    SegmentIsLinked(canon, previous, birthday, high);
    SegmentIsKept(canon, target, birthday, high);
    FollowIsSegment(Segment(canon, birthday, high), canon, previous, target, birthday);
  }

  /** Repeated scans of one chain gain a hundred blocks each until they reach
      the target, whatever fork the journal came from. */
  lemma {:induction false} ScansGain(blocks: seq<Entry>, canon: nat -> string, previous: string -> string,
                                     target: nat, birthday: nat, scans: nat)
    requires Linked(blocks, previous) && ChainLinked(canon, previous) && StartsAt(blocks, birthday) && scans > 0
    ensures Repeat(blocks, canon, target, birthday, scans)
         == Segment(canon, birthday, Reached(Kept(blocks, canon, target), target, birthday, scans))
    ensures birthday <= Start(Kept(blocks, canon, target), birthday)
    decreases scans
  {
    hide Linked, ChainLinked, StartsAt, Kept, Follow, Segment;
    if scans == 1 {
      assert Repeat(blocks, canon, target, birthday, 0) == blocks;
      FollowIsSegment(blocks, canon, previous, target, birthday);
      KeptIsSegment(blocks, canon, previous, target, birthday);
      StartIsLater(Kept(blocks, canon, target), canon, birthday);
    } else {
      ScansGain(blocks, canon, previous, target, birthday, scans - 1);
      ScanAgain(canon, previous, target, birthday, Reached(Kept(blocks, canon, target), target, birthday, scans - 1));
    }
  }

  /** Enough scans make the journal the whole canonical chain up to the target. */
  lemma ScansReachTarget(blocks: seq<Entry>, canon: nat -> string, previous: string -> string,
                         target: nat, birthday: nat, scans: nat)
    requires Linked(blocks, previous) && ChainLinked(canon, previous) && StartsAt(blocks, birthday)
    requires scans > 0 && 100 * scans > target - birthday
    ensures Repeat(blocks, canon, target, birthday, scans) == Segment(canon, birthday, target)
  {
    hide Linked, ChainLinked, StartsAt, Kept, Follow, Segment, Repeat;
    ScansGain(blocks, canon, previous, target, birthday, scans);
  }
}
