/** The B-link protocol as a state machine: threads that run insert and range, their
    mutexes, and one step per critical section. */
module BLinkThreads {
  import opened Basics
  import opened TreeKeys
  import opened BLinkTree

  // What a scan emits; `uid` names the leaf write that made the entry.
  datatype Entry = Entry(key: Key, id: InternalId, uid: nat)

  /** An operation under way. For a scan: what it has emitted so far, and the number of
      leaf writes that had happened when it was called. */
  datatype Op =
    | Ins(key: Key, id: InternalId)
    | Scan(lo: Key, hi: Key, out: seq<Entry>, start: nat)
  {
    // The key the descent routes by.
    function Target(): Key { if Ins? then key else lo }
  }

  // A split whose right half still has to be spliced next to `child`.
  datatype Promotion = Promotion(child: NodeId, sep: Key, right: NodeId)

  datatype Resource = RootMutex | GrowMutex | NodeMutex(node: NodeId)

  /** Where a thread stands. `Want…` states wait for a mutex; `held` is a node whose mutex
      is kept until the next one is taken. Fault stands for a failed assert or an index
      out of range. */
  datatype PC =
    | Idle
    | WantRoot(op: Op)
    | Want(op: Op, held: Option<NodeId>, node: NodeId)
    | At(op: Op, node: NodeId)
    | LeafWantGrow(node: NodeId)
    | LeafGrow(node: NodeId)
    | WantParent(pr: Promotion, held: Option<NodeId>, node: NodeId)
    | AtParent(pr: Promotion, node: NodeId)
    | WantSpliced(right: NodeId, node: NodeId)
    | InnerWantGrow(node: NodeId)
    | InnerGrow(node: NodeId)
    | Rehome(pr: Promotion, next: nat)
    | RehomeChild(pr: Promotion, next: nat, moved: NodeId)
    | WantRootCheck(pr: Promotion)
    | RootWantGrow(pr: Promotion)
    | RootGrow(pr: Promotion)
    | WantReread(pr: Promotion)
    | RootHints(top: NodeId, todo: seq<NodeId>)
    | Done(op: Op)
    | Fault

  function HeldNode(h: Option<NodeId>): set<Resource> {
    if h.Some? then {NodeMutex(h.value)} else {}
  }

  function Holds(pc: PC): set<Resource> {
    match pc
    case Want(_, held, _) => HeldNode(held)
    case At(_, n) => {NodeMutex(n)}
    case LeafWantGrow(n) => {NodeMutex(n)}
    case LeafGrow(n) => {NodeMutex(n), GrowMutex}
    case WantParent(_, held, _) => HeldNode(held)
    case AtParent(_, n) => {NodeMutex(n)}
    case WantSpliced(_, n) => {NodeMutex(n)}
    case InnerWantGrow(n) => {NodeMutex(n)}
    case InnerGrow(n) => {NodeMutex(n), GrowMutex}
    case Rehome(pr, _) => {NodeMutex(pr.child)}
    case RehomeChild(pr, _, _) => {NodeMutex(pr.child)}
    case RootWantGrow(_) => {RootMutex}
    case RootGrow(_) => {RootMutex, GrowMutex}
    case _ => {}
  }

  function Waits(pc: PC): Option<Resource> {
    match pc
    case WantRoot(_) => Some(RootMutex)
    case Want(_, _, n) => Some(NodeMutex(n))
    case LeafWantGrow(_) => Some(GrowMutex)
    case WantParent(_, _, n) => Some(NodeMutex(n))
    case WantSpliced(r, _) => Some(NodeMutex(r))
    case InnerWantGrow(_) => Some(GrowMutex)
    case RehomeChild(_, _, c) => Some(NodeMutex(c))
    case WantRootCheck(_) => Some(RootMutex)
    case RootWantGrow(_) => Some(GrowMutex)
    case WantReread(pr) => Some(NodeMutex(pr.child))
    case RootHints(_, todo) => if todo == [] then None else Some(NodeMutex(todo[0]))
    case _ => None
  }

  // The right half a thread has still to splice.
  function Owes(pc: PC): Option<NodeId> {
    match pc
    case WantParent(pr, _, _) => Some(pr.right)
    case AtParent(pr, _) => Some(pr.right)
    case Rehome(pr, _) => Some(pr.right)
    case RehomeChild(pr, _, _) => Some(pr.right)
    case WantRootCheck(pr) => Some(pr.right)
    case RootWantGrow(pr) => Some(pr.right)
    case RootGrow(pr) => Some(pr.right)
    case WantReread(pr) => Some(pr.right)
    case _ => None
  }

  datatype State = State(capacity: nat, tree: Tree, pcs: seq<PC>)

  predicate Free(s: State, r: Resource) {
    forall t :: 0 <= t < |s.pcs| ==> r !in Holds(s.pcs[t])
  }

  // A thread can step when the mutex it waits for, if any, is free.
  predicate Ready(s: State, t: nat) {
    && t < |s.pcs|
    && !s.pcs[t].Fault?
    && (Waits(s.pcs[t]).Some? ==> Free(s, Waits(s.pcs[t]).value))
  }

  // ----- the steps -----

  // A node that can be used: it exists and its arrays agree.
  predicate Usable(tree: Tree, n: NodeId) {
    n < |tree.nodes| == |tree.par| && NodeShape(tree.nodes[n])
  }

  // Where a split's promotion goes next, given the hint read under the child's mutex.
  function Promoted(pr: Promotion, hint: Option<NodeId>): PC {
    if hint.Some? then WantParent(pr, None, hint.value) else WantRootCheck(pr)
  }

  // At a locked node during insert or range: hop right, descend, or work on the leaf.
  function StepAt(capacity: nat, tree: Tree, op: Op, n: NodeId): (Tree, PC) {
    if !Usable(tree, n) then (tree, Fault)
    else
      var nd := tree.nodes[n];
      var k := op.Target();
      if nd.high.Some? && nd.high.value < k then
        (tree, if nd.right.Some? then Want(op, Some(n), nd.right.value) else Fault)
      else if !nd.leaf then
        (tree, Want(op, Some(n), nd.children[LowerBound(nd.keys, k)]))
      else match op
        case Ins(key, id) =>
          var tree' := WriteLeaf(tree, n, key, id);
          (tree', if |tree'.nodes[n].keys| <= capacity then Idle else LeafWantGrow(n))
        case Scan(lo, hi, out, start) =>
          var next := Scan(lo, hi, out + Batch(nd, lo, hi), start);
          (tree, if ScanEnd(nd.keys, LowerBound(nd.keys, lo), hi) < |nd.keys| || nd.right.None?
                 then Done(next) else Want(next, None, nd.right.value))
  }

  // The entries a scan copies out of one leaf, all under that leaf's mutex.
  function Batch(nd: Node, lo: Key, hi: Key): (b: seq<Entry>)
    requires nd.leaf && NodeShape(nd)
  {
    var from := LowerBound(nd.keys, lo);
    var to := ScanEnd(nd.keys, from, hi);
    seq(to - from, i requires 0 <= i < to - from =>
      Entry(nd.keys[from + i], nd.values[from + i], nd.uids[from + i]))
  }

  function StepLeafGrow(tree: Tree, n: NodeId): (Tree, PC) {
    if !Usable(tree, n) || !tree.nodes[n].leaf || tree.nodes[n].keys == [] then (tree, Fault)
    else
      var pr := Promotion(n, tree.nodes[n].keys[LeafMid(tree.nodes[n]) - 1], |tree.nodes|);
      (SplitLeaf(tree, n), Promoted(pr, tree.nodes[n].hint))
  }

  // `move_right_to_child_`, then the splice at the child's own position.
  function StepAtParent(tree: Tree, pr: Promotion, n: NodeId): (Tree, PC) {
    if !Usable(tree, n) || tree.nodes[n].leaf || pr.right >= |tree.par| then (tree, Fault)
    else if pr.child !in tree.nodes[n].children then
      (tree, if tree.nodes[n].right.Some? then WantParent(pr, Some(n), tree.nodes[n].right.value) else Fault)
    else
      var ci := IndexOf(tree.nodes[n].children, pr.child);
      (Splice(tree, n, ci, pr.sep, pr.right), WantSpliced(pr.right, n))
  }

  function StepSpliced(capacity: nat, tree: Tree, r: NodeId, n: NodeId): (Tree, PC) {
    if !Usable(tree, r) || !Usable(tree, n) then (tree, Fault)
    else (WriteHint(tree, r, n), if |tree.nodes[n].keys| <= capacity then Idle else InnerWantGrow(n))
  }

  function StepInnerGrow(tree: Tree, n: NodeId): (Tree, PC) {
    if !Usable(tree, n) || tree.nodes[n].leaf || tree.nodes[n].keys == [] then (tree, Fault)
    else
      var mid := InnerMid(tree.nodes[n]);
      (SplitInner(tree, n), Rehome(Promotion(n, tree.nodes[n].keys[mid], |tree.nodes|), 0))
  }

  /** The loop of `split_internal_` over the children of the new right half. It reads the
      list as it is at that moment, by position and without the right half's mutex, which
      other threads may take meanwhile. See BLinkLists for when the list stays the same. */
  function StepRehome(tree: Tree, pr: Promotion, next: nat): (Tree, PC) {
    if !Usable(tree, pr.child) || !Usable(tree, pr.right) then (tree, Fault)
    else if next >= |tree.nodes[pr.right].children| then (tree, Promoted(pr, tree.nodes[pr.child].hint))
    else (tree, RehomeChild(pr, next, tree.nodes[pr.right].children[next]))
  }

  function StepRehomeChild(tree: Tree, pr: Promotion, next: nat, c: NodeId): (Tree, PC) {
    if !Usable(tree, c) then (tree, Fault)
    else (WriteHint(tree, c, pr.right), Rehome(pr, next + 1))
  }

  function StepRootGrow(tree: Tree, pr: Promotion): (Tree, PC) {
    if !Usable(tree, pr.child) || !Usable(tree, pr.right) then (tree, Fault)
    else (GrowRoot(tree, pr.child, pr.sep, pr.right), RootHints(|tree.nodes|, [pr.child, pr.right]))
  }

  function StepReread(tree: Tree, pr: Promotion): (Tree, PC) {
    if !Usable(tree, pr.child) then (tree, Fault)
    else (tree, Promoted(pr, tree.nodes[pr.child].hint))
  }

  function StepRootHints(tree: Tree, top: NodeId, todo: seq<NodeId>): (Tree, PC) {
    if todo == [] then (tree, Idle)
    else if !Usable(tree, todo[0]) then (tree, Fault)
    else (WriteHint(tree, todo[0], top), RootHints(top, todo[1..]))
  }

  // An idle thread's next call: any insert, or any scan.
  datatype Call = CallInsert(key: Key, id: InternalId) | CallRange(lo: Key, hi: Key)

  function Begin(tree: Tree, call: Call): PC {
    match call
    case CallInsert(key, id) => WantRoot(Ins(key, id))
    case CallRange(lo, hi) =>
      var op := Scan(lo, hi, [], |tree.log|);
      if lo > hi then Done(op) else WantRoot(op)
  }

  // One step of a thread at pc, whose awaited mutex is free.
  function StepThread(capacity: nat, tree: Tree, pc: PC, call: Call): (Tree, PC) {
    match pc
    case Idle => (tree, Begin(tree, call))
    case WantRoot(op) => (tree, Want(op, None, tree.root))
    case Want(op, _, n) => (tree, At(op, n))
    case At(op, n) => StepAt(capacity, tree, op, n)
    case LeafWantGrow(n) => (tree, LeafGrow(n))
    case LeafGrow(n) => StepLeafGrow(tree, n)
    case WantParent(pr, _, n) => (tree, AtParent(pr, n))
    case AtParent(pr, n) => StepAtParent(tree, pr, n)
    case WantSpliced(r, n) => StepSpliced(capacity, tree, r, n)
    case InnerWantGrow(n) => (tree, InnerGrow(n))
    case InnerGrow(n) => StepInnerGrow(tree, n)
    case Rehome(pr, next) => StepRehome(tree, pr, next)
    case RehomeChild(pr, next, c) => StepRehomeChild(tree, pr, next, c)
    case WantRootCheck(pr) =>
      (tree, if tree.root == pr.child then RootWantGrow(pr) else WantReread(pr))
    case RootWantGrow(pr) => (tree, RootGrow(pr))
    case RootGrow(pr) => StepRootGrow(tree, pr)
    case WantReread(pr) => StepReread(tree, pr)
    case RootHints(top, todo) => StepRootHints(tree, top, todo)
    case Done(_) => (tree, Idle)
    case Fault => (tree, Fault)
  }

  function Step(s: State, t: nat, call: Call): State
    requires Ready(s, t)
  {
    var (tree', pc') := StepThread(s.capacity, s.tree, s.pcs[t], call);
    State(s.capacity, tree', s.pcs[t := pc'])
  }

  // A fresh tree and idle threads.
  ghost predicate Init(s: State) {
    s.tree == EmptyTree() && forall t :: 0 <= t < |s.pcs| ==> s.pcs[t].Idle?
  }

  // A run: any interleaving of the threads' steps and calls.
  ghost predicate Follows(s: State, s': State) {
    exists t: nat, call: Call :: Ready(s, t) && s' == Step(s, t, call)
  }

  ghost predicate Run(states: seq<State>) {
    && states != [] && Init(states[0])
    && forall i :: 0 <= i < |states| - 1 ==> Follows(states[i], states[i + 1])
  }
}
