/** The runtime selection store (tools/li_runtime_packs.py): one receipt per logical
    model with a one-deep history, the immutable object store it refers to, the published
    candidate views, and pruning. A receipt's remaining fields are `details`. */
module SelectionStore {
  import opened Text

  // What a history row keeps of a receipt.
  datatype Entry = Entry(model: string, candidate: string, digest: string, details: string)

  datatype Receipt = Receipt(entry: Entry, history: seq<Entry>) {
    function Model(): string { entry.model }
    function Digest(): string { entry.digest }
  }

  // The files: active/<model>.json, .objects/<digest>, and runtimes/<candidate>.
  datatype State = State(active: map<string, Receipt>, objects: set<string>, views: map<string, string>)

  // A step ends normally or raises, leaving the files as they then are.
  datatype Step = Step(ok: bool, state: State)

  // ---------------------------------------------------------------- what each operation does

  predicate Names(r: Receipt, digest: string) {
    r.Digest() == digest || exists e :: e in r.history && e.digest == digest
  }

  // The object digests some receipt or its history still names.
  predicate Retained(active: map<string, Receipt>, digest: string) {
    exists m :: m in active && Names(active[m], digest)
  }

  function Pruned(s: State): State {
    s.(objects := set d | d in s.objects && Retained(s.active, d))
  }

  function Prior(s: State, model: string): Option<Receipt> {
    if model in s.active then Some(s.active[model]) else None
  }

  // The receipt as written: its own history if it brings one, else the previous receipt's,
  // extended by the previous receipt when the digest changes, cut to the last row.
  function Written(s: State, r: Receipt): (w: Receipt)
    ensures w.entry == r.entry && |w.history| <= 1
  {
    var previous := Prior(s, r.Model());
    var carried := if r.history != [] then r.history else if previous.Some? then previous.value.history else [];
    var history := if previous.Some? && previous.value.Digest() != r.Digest()
                   then carried + [previous.value.entry] else carried;
    Receipt(r.entry, if history == [] then [] else [history[|history| - 1]])
  }

  // Replace the receipt file, publish its candidate view from the object store, prune.
  function Commit(s: State, value: Receipt): Step {
    var recorded := s.(active := s.active[value.Model() := value]);
    if value.Digest() !in s.objects then Step(false, recorded)
    else Step(true, Pruned(recorded.(views := recorded.views[value.entry.candidate := value.Digest()])))
  }

  function Store(s: State, digest: string): State { s.(objects := s.objects + {digest}) }

  function Write(s: State, r: Receipt): Step { Commit(s, Written(s, r)) }

  // Installing stores the runtime object and then writes its receipt.
  function Install(s: State, r: Receipt): Step { Write(Store(s, r.Digest()), r) }

  function Restore(s: State, replacement: Receipt, previous: Option<Receipt>): Step {
    var model := replacement.Model();
    if previous.Some? && previous.value.Model() != model then Step(false, s)
    else if model !in s.active then Step(previous.None?, s)
    else
      var current := s.active[model];
      if previous.Some? && current.Digest() == previous.value.Digest() then Step(true, s)
      else if current.Digest() != replacement.Digest() then Step(false, s)
      else if previous.Some? then Commit(s, previous.value)
      else if replacement.entry.candidate in s.views && s.views[replacement.entry.candidate] != replacement.Digest()
      then Step(false, s)
      else Step(true, Pruned(State(s.active - {model}, s.objects, s.views - {replacement.entry.candidate})))
  }

  // ---------------------------------------------------------------- the store as an object

  class Home {
    var active: map<string, Receipt>
    var objects: set<string>
    var views: map<string, string>

    function Files(): State
      reads this
    {
      State(active, objects, views)
    }

    constructor ()
      ensures Files() == State(map[], {}, map[])
    {
      active, objects, views := map[], {}, map[];
    }

    method StorePack(digest: string)
      modifies this
      ensures Files() == Store(old(Files()), digest)
    {
      if digest !in objects {
        objects := objects + {digest};
      }
      assert Files() == Store(old(Files()), digest);
    }

    method PruneObjects()
      modifies this`objects
      ensures Files() == Pruned(old(Files()))
    {
      var retained: set<string> := {};
      var receipts := active.Keys;
      while receipts != {}
        invariant receipts <= active.Keys
        invariant forall d :: d in retained <==> (exists m :: m in active.Keys - receipts && Names(active[m], d))
        decreases receipts
      {
        var m :| m in receipts;
        retained := retained + {active[m].Digest()} + set e | e in active[m].history :: e.digest;
        receipts := receipts - {m};
      }
      objects := set d | d in objects && d in retained;
      assert objects == Pruned(old(Files())).objects;
    }

    method CommitSelection(value: Receipt) returns (ok: bool)
      modifies this
      ensures Step(ok, Files()) == Commit(old(Files()), value)
    {
      active := active[value.Model() := value];
      if value.Digest() !in objects {
        return false;
      }
      views := views[value.entry.candidate := value.Digest()];
      PruneObjects();
      return true;
    }

    method WriteSelection(r: Receipt) returns (ok: bool)
      modifies this
      ensures Step(ok, Files()) == Write(old(Files()), r)
    {
      var history := [];
      if r.history != [] {
        history := r.history;
      } else if r.Model() in active {
        history := active[r.Model()].history;
      }
      if r.Model() in active && active[r.Model()].Digest() != r.Digest() {
        history := history + [active[r.Model()].entry];
      }
      ok := CommitSelection(Receipt(r.entry, if history == [] then [] else [history[|history| - 1]]));
    }

    method RestoreSelection(replacement: Receipt, previous: Option<Receipt>) returns (ok: bool)
      modifies this
      ensures Step(ok, Files()) == Restore(old(Files()), replacement, previous)
    {
      var model := replacement.Model();
      if previous.Some? && previous.value.Model() != model { return false; }
      if model !in active { return previous.None?; }
      var current := active[model];
      if previous.Some? && current.Digest() == previous.value.Digest() { return true; }
      if current.Digest() != replacement.Digest() { return false; }
      if previous.Some? {
        ok := CommitSelection(previous.value);
        return;
      }
      var candidate := replacement.entry.candidate;
      if candidate in views && views[candidate] != replacement.Digest() { return false; }
      active := active - {model};
      views := views - {candidate};
      PruneObjects();
      return true;
    }

    // Any run of installs, some undone at once, from a consistent store.
    method Session(operations: seq<Operation>)
      requires Consistent(Files())
      modifies this
      ensures Consistent(Files()) && Files() == Run(old(Files()), operations)
    {
      for n := 0 to |operations|
        invariant Consistent(Files())
        invariant Run(Files(), operations[n..]) == Run(old(Files()), operations)
      {
        var r := operations[n].receipt;
        ghost var before := Files();
        var prior := if r.Model() in active then Some(active[r.Model()]) else None;
        StorePack(r.Digest());
        var ok := WriteSelection(r);
        InstallKeepsConsistency(before, r);
        if operations[n].Undone? {
          var undone := RestoreSelection(r, prior);
          RestoreUndoesInstall(before, r);
        }
        assert operations[n..][1..] == operations[n + 1..];
        assert Files() == Apply(before, operations[n]);
      }
    }
  }

  // ---------------------------------------------------------------- whole sessions

  datatype Operation = Kept(receipt: Receipt) | Undone(receipt: Receipt)

  function Apply(s: State, op: Operation): State {
    var installed := Install(s, op.receipt).state;
    if op.Kept? then installed else Restore(installed, op.receipt, Prior(s, op.receipt.Model())).state
  }

  function Run(s: State, ops: seq<Operation>): State
    decreases |ops|
  {
    if ops == [] then s else Run(Apply(s, ops[0]), ops[1..])
  }

  // Every active receipt is filed under its model and its object is in the store.
  predicate Consistent(s: State) {
    forall m :: m in s.active ==> s.active[m].Model() == m && s.active[m].Digest() in s.objects
  }

  lemma PruneKeepsActive(s: State)
    requires Consistent(s)
    ensures Consistent(Pruned(s)) && Pruned(s).active == s.active
    ensures forall m, e :: m in s.active && e in s.active[m].history && e.digest in s.objects ==>
      e.digest in Pruned(s).objects
  {
    forall m | m in s.active ensures s.active[m].Digest() in Pruned(s).objects {
      assert Names(s.active[m], s.active[m].Digest());
    }
    forall m, e | m in s.active && e in s.active[m].history && e.digest in s.objects
      ensures e.digest in Pruned(s).objects
    {
      assert Names(s.active[m], e.digest);
    }
  }

  // Some active receipt, or a row of its history, carries the digest.
  predicate Referenced(active: map<string, Receipt>, digest: string) {
    exists m :: m in active &&
      (active[m].entry.digest == digest || exists k :: 0 <= k < |active[m].history| && active[m].history[k].digest == digest)
  }

  lemma RetainedIsReferenced(active: map<string, Receipt>, digest: string)
    ensures Retained(active, digest) <==> Referenced(active, digest)
  {
    if m :| m in active && Names(active[m], digest) {
      if active[m].Digest() != digest {
        var e :| e in active[m].history && e.digest == digest;
        var k :| 0 <= k < |active[m].history| && active[m].history[k] == e;
      }
    }
    if m :| m in active && exists k :: 0 <= k < |active[m].history| && active[m].history[k].digest == digest {
      var k :| 0 <= k < |active[m].history| && active[m].history[k].digest == digest;
      assert active[m].history[k] in active[m].history;
      assert Names(active[m], digest);
    }
  }

  // Pruning removes exactly the objects that nothing refers to, and touches nothing else.
  lemma PruneIsExact(s: State)
    ensures forall d :: d in Pruned(s).objects <==> d in s.objects && Referenced(s.active, d)
    ensures Pruned(s).active == s.active && Pruned(s).views == s.views
  {
    hide Retained, Referenced;
    forall d ensures Retained(s.active, d) <==> Referenced(s.active, d) { RetainedIsReferenced(s.active, d); }
  }

  // The written history: the replaced runtime when the digest changes; otherwise the newest row of the
  // history brought along, or else of the history kept so far.
  lemma WrittenHistory(s: State, r: Receipt)
    ensures var h, known := Written(s, r).history, r.Model() in s.active;
      && (known && s.active[r.Model()].Digest() != r.Digest() ==> h == [s.active[r.Model()].entry])
      && (!(known && s.active[r.Model()].Digest() != r.Digest()) && r.history != [] ==> h == [r.history[|r.history| - 1]])
      && (known && s.active[r.Model()].Digest() == r.Digest() && r.history == [] && |s.active[r.Model()].history| <= 1 ==>
            h == s.active[r.Model()].history)
      && (!known && r.history == [] ==> h == [])
  {
  }

  // An install always succeeds, shows the new runtime, keeps every other receipt, and
  // keeps the replaced receipt's object for rollback.
  lemma InstallKeepsConsistency(s: State, r: Receipt)
    requires Consistent(s)
    ensures var step := Install(s, r);
      && step.ok && Consistent(step.state)
      && step.state.active == s.active[r.Model() := Written(s, r)]
      && step.state.views == s.views[r.entry.candidate := r.Digest()]
      && (r.Model() in s.active ==> s.active[r.Model()].Digest() in step.state.objects)
      && forall d :: d in step.state.objects <==> (d in s.objects || d == r.Digest()) && Referenced(step.state.active, d)
  {
    hide Pruned, Referenced;
    var stored := Store(s, r.Digest());
    var w := Written(s, r);
    assert Written(stored, r) == w;
    var recorded := State(s.active[r.Model() := w], stored.objects, s.views[r.entry.candidate := r.Digest()]);
    PruneKeepsActive(recorded);
    PruneIsExact(recorded);
    assert Install(s, r).state == Pruned(recorded);
    if r.Model() in s.active {
      var e := s.active[r.Model()].entry;
      if e.digest == r.Digest() {
        assert recorded.active[r.Model()] == w;
      } else {
        assert w.history == [e] && e in recorded.active[r.Model()].history && e.digest in recorded.objects;
      }
    }
  }

  // Whatever the store holds, a restore changes files only while the model's active receipt is the
  // replacement it was asked to undo, and never another model's receipt.
  lemma RestoreTouchesOnlyItsReplacement(s: State, replacement: Receipt, previous: Option<Receipt>)
    ensures var step, m := Restore(s, replacement, previous), replacement.Model();
      && (step.state != s ==> m in s.active && s.active[m].Digest() == replacement.Digest())
      && (forall other :: other != m ==> Prior(step.state, other) == Prior(s, other))
      && (step.ok && previous.Some? ==> m in step.state.active && step.state.active[m].Digest() == previous.value.Digest())
      && (step.ok && previous.None? ==> m !in step.state.active)
  {
    hide Retained;
  }

  // The install replaces a receipt of the very same digest.
  predicate SameDigest(s: State, r: Receipt) {
    r.Model() in s.active && s.active[r.Model()].Digest() == r.Digest()
  }

  // The candidate's published view is this runtime.
  predicate Shows(s: State, e: Entry) { e.candidate in s.views && s.views[e.candidate] == e.digest }

  // The replaced runtime's view is published again; the view of a first install is removed.
  function ViewsAfterUndo(s: State, r: Receipt): map<string, string> {
    if r.Model() in s.active then
      var p := s.active[r.Model()];
      s.views[r.entry.candidate := r.Digest()][p.entry.candidate := p.Digest()]
    else s.views - {r.entry.candidate}
  }

  // A restore right after the install succeeds and puts back exactly the prior receipts
  // when the digest changed or there was no receipt; reinstalling the same digest is
  // left in place, so then the prior receipt is back only if it was rewritten unchanged.
  lemma RestoreUndoesInstall(s: State, r: Receipt)
    requires Consistent(s)
    ensures var step := Restore(Install(s, r).state, r, Prior(s, r.Model()));
      && step.ok && Consistent(step.state)
      && (step.state.active == s.active <==> !SameDigest(s, r) || Written(s, r) == s.active[r.Model()])
      && (r.Model() in s.active && !SameDigest(s, r) ==> Shows(step.state, s.active[r.Model()].entry))
      && (!SameDigest(s, r) ==>
            && step.state.views == ViewsAfterUndo(s, r)
            && forall d :: d in step.state.objects ==> Referenced(s.active, d))
  {
    InstallKeepsConsistency(s, r);
    var m, installed := r.Model(), Install(s, r).state;
    if m !in s.active {
      UndoFirst(s, r, installed);
    } else if !SameDigest(s, r) {
      UndoReplacement(s, r, installed);
    }
  }

  // The files after installing r over s.
  predicate InstalledOver(s: State, r: Receipt, t: State) {
    && Consistent(s) && Consistent(t)
    && t.active == s.active[r.Model() := Written(s, r)]
    && t.views == s.views[r.entry.candidate := r.Digest()]
    && (r.Model() in s.active ==> s.active[r.Model()].Digest() in t.objects)
  }

  lemma UndoReplacement(s: State, r: Receipt, t: State)
    requires InstalledOver(s, r, t) && r.Model() in s.active && !SameDigest(s, r)
    ensures var step := Restore(t, r, Prior(s, r.Model()));
      && step.ok && Consistent(step.state) && step.state.active == s.active && Shows(step.state, s.active[r.Model()].entry)
      && step.state.views == ViewsAfterUndo(s, r) && forall d :: d in step.state.objects ==> Referenced(s.active, d)
  {
    hide Pruned, Written, Referenced;
    var p := s.active[r.Model()];
    assert t.active[r.Model() := p] == s.active;
    var recorded := State(s.active, t.objects, t.views[p.entry.candidate := p.Digest()]);
    PruneKeepsActive(recorded);
    PruneIsExact(recorded);
  }

  lemma UndoFirst(s: State, r: Receipt, t: State)
    requires InstalledOver(s, r, t) && r.Model() !in s.active
    ensures var step := Restore(t, r, None);
      && step.ok && Consistent(step.state) && step.state.active == s.active
      && step.state.views == ViewsAfterUndo(s, r) && forall d :: d in step.state.objects ==> Referenced(s.active, d)
  {
    hide Pruned, Written, Referenced;
    assert t.active - {r.Model()} == s.active;
    assert t.views - {r.entry.candidate} == s.views - {r.entry.candidate};
    PruneKeepsActive(State(s.active, t.objects, t.views - {r.entry.candidate}));
    PruneIsExact(State(s.active, t.objects, t.views - {r.entry.candidate}));
  }

  lemma {:induction false} SessionsStayConsistent(s: State, ops: seq<Operation>)
    requires Consistent(s)
    ensures Consistent(Run(s, ops))
    decreases |ops|
  {
    if ops != [] {
      InstallKeepsConsistency(s, ops[0].receipt);
      RestoreUndoesInstall(s, ops[0].receipt);
      SessionsStayConsistent(Apply(s, ops[0]), ops[1..]);
    }
  }
}
