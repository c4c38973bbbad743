/** Snapshot save and restore: a directory state machine with a failure, or the end of the process,
    possible at every step. */
module Snapshot {
  import opened Values

  /** A database directory: whole, or what a half-finished deletion or extraction leaves. */
  datatype Db = Whole(content: string) | Debris

  type Payload = map<string, Json>

  /** `ambient_state.json`. */
  datatype Sidecar = Unparsable | States(states: map<string, Payload>)

  datatype Flaw = Sound | Unreadable | UnsafeMember

  datatype Archive = Archive(db: Option<Db>, sidecar: Option<Sidecar>, flaw: Flaw)

  /** `bak` is the single `.bak` slot; `partial` are the `.tgz.partial` files. */
  datatype Disk = Disk(
    live: Option<Db>, bak: Option<Db>, sidecar: Option<Sidecar>,
    snapshots: map<string, Archive>, partial: set<string>)

  /** How a command ends: an exit code, a `SystemExit` message, or an uncaught exception. */
  datatype Exit = Code(n: int) | Refused | Escaped

  /** What goes wrong around one command. */
  datatype Faults = Faults(
    locked: bool, rmFails: bool, renameFails: bool, extractFails: bool, sidecarLanded: bool,
    debrisStays: bool, rollbackFails: bool, writeFails: bool)

  predicate BadName(name: string) { name == "" || '/' in name || name[0] == '.' }

  // ---------------------------------------------------------------------------------------------
  // Restore: the disk states it goes through, in order, and how it ends
  // ---------------------------------------------------------------------------------------------

  /** Move the live database to `.bak`, deleting the old `.bak` first. */
  function SetAside(d: Disk, f: Faults): (seq<Disk>, Option<Exit>) {
    if d.live.None? then ([], None)
    else
      var cleared := if d.bak.None? then [] else [d.(bak := Some(Debris)), d.(bak := None)];
      if d.bak.Some? && f.rmFails then ([d.(bak := Some(Debris))], Some(Escaped))
      else if f.renameFails then (cleared, Some(Code(2)))
      else (cleared + [d.(live := None, bak := d.live)], None)
  }

  /** The exception handler: delete what was extracted, ignoring errors, and move `.bak` back. */
  function RollBack(d: Disk, f: Faults): (seq<Disk>, Exit) {
    var swept := if d.live.Some? && !f.debrisStays then [d.(live := None)] else [];
    var e := if swept == [] then d else swept[0];
    if e.bak.None? then (swept, Code(3))
    else if e.live.Some? || f.rollbackFails then (swept, Escaped)
    else (swept + [e.(live := e.bak, bak := None)], Code(3))
  }

  function Unpack(d: Disk, a: Archive, f: Faults): (seq<Disk>, Exit) {
    if a.flaw.Unreadable? then RollBack(d, f)
    else if a.flaw.UnsafeMember? then ([], Refused)
    else
      var half := d.(live := Some(Debris),
                     sidecar := if f.sidecarLanded && a.sidecar.Some? then a.sidecar else d.sidecar);
      if f.extractFails then
        var (rest, exit) := RollBack(half, f);
        ([half] + rest, exit)
      else
        ([half, d.(live := a.db, sidecar := if a.sidecar.Some? then a.sidecar else d.sidecar)], Code(0))
  }

  function Last(states: seq<Disk>): Disk
    requires states != []
  {
    states[|states| - 1]
  }

  /** The states a restore goes through after the one it finds. */
  function RestoreSteps(d: Disk, name: string, f: Faults): (seq<Disk>, Exit) {
    if BadName(name) then ([], Refused)
    else if name !in d.snapshots then ([], Code(1))
    else if f.locked then ([], Code(2))
    else
      var (moved, stop) := SetAside(d, f);
      if stop.Some? then (moved, stop.value)
      else
        var (unpacked, exit) := Unpack(Last([d] + moved), d.snapshots[name], f);
        (moved + unpacked, exit)
  }

  function Restore(d: Disk, name: string, f: Faults): (r: (seq<Disk>, Exit))
    ensures r.0 != [] && r.0[0] == d
  {
    ([d] + RestoreSteps(d, name, f).0, RestoreSteps(d, name, f).1)
  }

  predicate Proceeds(d: Disk, name: string, f: Faults) {
    !BadName(name) && name in d.snapshots && !f.locked
  }

  // ---------------------------------------------------------------------------------------------
  // One restore
  // ---------------------------------------------------------------------------------------------

  /** At every step, and so wherever the process stops, a database that was live at the start is
      intact at the live path or in `.bak`. */
  lemma LiveDatabaseNeverLost(d: Disk, name: string, f: Faults, k: nat)
    requires d.live.Some? && k < |Restore(d, name, f).0|
    ensures Restore(d, name, f).0[k].live == d.live || Restore(d, name, f).0[k].bak == d.live
  {}

  /** What each way of ending means for the database that was live. */
  lemma ExitMeaning(d: Disk, name: string, f: Faults)
    requires d.live.Some?
    ensures var (states, exit) := Restore(d, name, f); var end := Last(states);
      && (exit == Code(0) ==> Proceeds(d, name, f) && end.live == d.snapshots[name].db && end.bak == d.live)
      && (exit == Code(3) ==> end.live == d.live && end.bak == None)
      && (exit == Code(2) ==> end.live == d.live)
      && (exit == Code(1) ==> end == d)
      && (exit == Refused && Proceeds(d, name, f) ==> end.live == None && end.bak == d.live)
      && (exit == Escaped ==> end.live == d.live || end.bak == d.live)
  {}

  /** Something was extracted and the handler cannot delete it. */
  predicate LeavesSomethingBehind(a: Archive, f: Faults) {
    a.flaw.Sound? && f.debrisStays
  }

  /** A restore that starts and does not succeed has put the live database back exactly when it never got
      to move it, or its archive was not refused (that leaves by `SystemExit`, past the handler) and the
      handler could clear the live path and rename `.bak`. */
  lemma FailedRestorePutsBackExactly(d: Disk, name: string, f: Faults)
    requires d.live.Some? && d.live.value.Whole? && Proceeds(d, name, f) && Restore(d, name, f).1 != Code(0)
    ensures Last(Restore(d, name, f).0).live == d.live <==>
      || (d.bak.Some? && f.rmFails)
      || f.renameFails
      || (!d.snapshots[name].flaw.UnsafeMember? && !f.rollbackFails && !LeavesSomethingBehind(d.snapshots[name], f))
  {}

  /** The handler puts the database back, not the sidecar: after a restore that starts and does not succeed
      it is the old one exactly when extraction did not begin, did not get to the sidecar, or brought the
      same one. */
  lemma FailedRestoreKeepsSidecarExactly(d: Disk, name: string, f: Faults)
    requires Proceeds(d, name, f) && Restore(d, name, f).1 != Code(0)
    ensures var a := d.snapshots[name];
      Last(Restore(d, name, f).0).sidecar == d.sidecar <==>
        || !a.flaw.Sound?
        || (d.live.Some? && (f.renameFails || (d.bak.Some? && f.rmFails)))
        || !f.sidecarLanded
        || a.sidecar.None?
        || a.sidecar == d.sidecar
  {}

  /** The command succeeds exactly when nothing failed and the archive is sound. */
  lemma SucceedsExactly(d: Disk, name: string, f: Faults)
    requires Proceeds(d, name, f)
    ensures Restore(d, name, f).1 == Code(0) <==>
      && d.snapshots[name].flaw.Sound? && !f.extractFails
      && (d.live.Some? ==> !f.renameFails && (d.bak.Some? ==> !f.rmFails))
  {}

  /** The live database, if there is one, could be moved to `.bak`. */
  predicate MovesAside(d: Disk, f: Faults) {
    d.live.Some? ==> !f.renameFails && (d.bak.Some? ==> !f.rmFails)
  }

  /** The handler can put `.bak` back: there is one, the live path can be cleared and the rename works. */
  predicate HandlerWorks(d: Disk, a: Archive, f: Faults) {
    d.live.Some? || d.bak.Some? ==> !f.rollbackFails && !(a.flaw.Sound? && f.debrisStays)
  }

  /** Which exit means what, for every disk, name and fault: a bad name or an unsafe archive is refused; 1 is
      a snapshot that is not there; 2 a server that is running or a live database that cannot be renamed; 3 a
      failed extraction that was undone; anything else that goes wrong escapes as an exception. */
  lemma ExitsExactly(d: Disk, name: string, f: Faults)
    ensures var exit := Restore(d, name, f).1;
      var good := name != "" && '/' !in name && name[0] != '.';
      var started := good && name in d.snapshots && !f.locked;
      && (exit == Code(1) <==> good && name !in d.snapshots)
      && (exit == Code(2) <==>
            && good && name in d.snapshots
            && (f.locked || (d.live.Some? && f.renameFails && (d.bak.Some? ==> !f.rmFails))))
      && (exit == Refused <==> !good || (started && MovesAside(d, f) && d.snapshots[name].flaw.UnsafeMember?))
      && (exit == Code(0) <==>
            started && MovesAside(d, f) && d.snapshots[name].flaw.Sound? && !f.extractFails)
      && (exit == Code(3) <==>
            && started && MovesAside(d, f) && HandlerWorks(d, d.snapshots[name], f)
            && (d.snapshots[name].flaw.Unreadable? || (d.snapshots[name].flaw.Sound? && f.extractFails)))
      && (exit == Escaped <==>
            && started
            && ((d.live.Some? && d.bak.Some? && f.rmFails)
                || (MovesAside(d, f) && !HandlerWorks(d, d.snapshots[name], f)
                    && (d.snapshots[name].flaw.Unreadable? || (d.snapshots[name].flaw.Sound? && f.extractFails)))))
  {
    BadNameExactly(name);
    hide BadName;
    if name in d.snapshots {
      var (moved, stop) := SetAside(d, f);
      if stop.None? {
        UnpackExits(Last([d] + moved), d.snapshots[name], f);
      }
    }
    hide Unpack;
  }

  lemma BadNameExactly(name: string)
    ensures BadName(name) <==> !(name != "" && '/' !in name && name[0] != '.')
  {}

  lemma UnpackExits(d: Disk, a: Archive, f: Faults)
    requires d.live.None?
    ensures var exit := Unpack(d, a, f).1;
      var undone := d.bak.Some? ==> !f.rollbackFails && !(a.flaw.Sound? && f.debrisStays);
      && exit == if a.flaw.UnsafeMember? then Refused
                 else if a.flaw.Sound? && !f.extractFails then Code(0)
                 else if undone then Code(3) else Escaped
  {}

  /** With no live database the rollback has nothing of its own to put back: a stale `.bak`, if there
      is one, becomes live. */
  lemma RollbackPromotesStaleBackup(d: Disk, name: string, f: Faults)
    requires d.live.None? && Restore(d, name, f).1 == Code(3)
    ensures Last(Restore(d, name, f).0).live ==
      if d.bak.Some? then d.bak
      else if f.debrisStays && d.snapshots[name].flaw.Sound? then Some(Debris) else None
    ensures Last(Restore(d, name, f).0).bak == None
  {}

  // ---------------------------------------------------------------------------------------------
  // Restore after restore
  // ---------------------------------------------------------------------------------------------

  predicate Kept(d: Disk, db: Db) { d.live == Some(db) || d.bak == Some(db) }

  /** `db` is live, or it is in `.bak` with nothing in its place. */
  predicate Recoverable(d: Disk, db: Db) { d.live == Some(db) || (d.live.None? && d.bak == Some(db)) }

  /** The next restore that gets past its checks keeps `db` at every step exactly when nothing else
      occupies the live path: otherwise its first act is to delete the `.bak` that holds `db`. */
  lemma NextRestoreKeepsExactly(d: Disk, name: string, f: Faults, db: Db)
    requires db.Whole? && Kept(d, db) && Proceeds(d, name, f)
    ensures (forall x <- Restore(d, name, f).0 :: Kept(x, db)) <==> Recoverable(d, db)
  {
    var (states, exit) := Restore(d, name, f);
    if !Recoverable(d, db) {
      assert states[1] == d.(bak := Some(Debris));
      assert !Kept(states[1], db);
    }
  }

  /** One attempt of the operator: a restore that ran to its end, or that was stopped after `stop` of
      its disk states. */
  datatype Attempt = Attempt(name: string, faults: Faults, stop: Option<nat>)

  function EndOf(d: Disk, a: Attempt): Disk {
    var states := Restore(d, a.name, a.faults).0;
    if a.stop.Some? && a.stop.value < |states| then states[a.stop.value] else Last(states)
  }

  function Attempts(d: Disk, h: seq<Attempt>): Disk {
    if h == [] then d else EndOf(Attempts(d, h[..|h| - 1]), h[|h| - 1])
  }

  /** Every state of a restore that starts recoverable keeps the database, and is recoverable itself
      unless something else has taken the live path. */
  lemma StateKeeps(d: Disk, name: string, f: Faults, k: nat, db: Db)
    requires Recoverable(d, db) && k < |Restore(d, name, f).0|
    ensures var x := Restore(d, name, f).0[k];
      Kept(x, db) && (x.live.None? || x.live == Some(db) ==> Recoverable(x, db))
  {
    if d.live.Some? {
      LiveDatabaseNeverLost(d, name, f, k);
    } else {
      LoneBackupNeverLost(d, name, f, k);
    }
    hide Restore;
  }

  lemma LoneBackupNeverLost(d: Disk, name: string, f: Faults, k: nat)
    requires d.live.None? && d.bak.Some? && k < |Restore(d, name, f).0|
    ensures Restore(d, name, f).0[k].live == d.bak || Restore(d, name, f).0[k].bak == d.bak
  {}

  lemma AttemptKeeps(d: Disk, a: Attempt, db: Db)
    requires Recoverable(d, db)
    ensures Kept(EndOf(d, a), db)
    ensures EndOf(d, a).live.None? || EndOf(d, a).live == Some(db) ==> Recoverable(EndOf(d, a), db)
  {
    var states := Restore(d, a.name, a.faults).0;
    StateKeeps(d, a.name, a.faults, if a.stop.Some? && a.stop.value < |states| then a.stop.value else |states| - 1, db);
  }

  /** Any number of failed, refused and interrupted restores keep the database recoverable, as long as
      each leaves the live path empty or holding that database. */
  lemma {:induction false} FailedRestoresKeepDatabase(d: Disk, h: seq<Attempt>, db: Db)
    requires Recoverable(d, db)
    requires forall n | 0 < n <= |h| :: Attempts(d, h[..n]).live.None? || Attempts(d, h[..n]).live == Some(db)
    ensures Recoverable(Attempts(d, h), db)
  {
    if h == [] {
    } else {
      var m := |h| - 1;
      assert forall n | 0 < n <= m :: h[..m][..n] == h[..n];
      FailedRestoresKeepDatabase(d, h[..m], db);
      AttemptKeeps(Attempts(d, h[..m]), h[m], db);
      assert h[..|h|] == h;
    }
  }

  /** The one interruption that matters: stopped in the middle of extracting, and run again.  The second
      run takes the half-extracted directory for the live database and deletes the real one. */
  lemma RerunAfterInterruptedExtractLosesDatabase(d: Disk, name: string, f: Faults, again: Faults, db: Db)
    requires db.Whole? && d.live == Some(db) && d.bak.None? && Proceeds(d, name, f) && Proceeds(d, name, again)
    requires Restore(d, name, f).1 == Code(0) && d.snapshots[name].db != Some(db)
    requires Restore(EndOf(d, Attempt(name, f, Some(2))), name, again).1 == Code(0)
    ensures EndOf(d, Attempt(name, f, Some(2))).live == Some(Debris)
    ensures !Kept(Attempts(d, [Attempt(name, f, Some(2)), Attempt(name, again, None)]), db)
  {
    var h := [Attempt(name, f, Some(2)), Attempt(name, again, None)];
    assert h[..1] == [h[0]] && [h[0]][..0] == [];
    assert Attempts(d, [h[0]]) == EndOf(d, h[0]);
  }

  // ---------------------------------------------------------------------------------------------
  // Save
  // ---------------------------------------------------------------------------------------------

  /** What the save command writes: the live directory, the collected module states, no flaw. */
  function Bundle(d: Disk, states: map<string, Payload>): Archive {
    Archive(d.live, Some(States(states)), Sound)
  }

  function Save(d: Disk, name: string, states: map<string, Payload>, f: Faults): (seq<Disk>, Exit) {
    if d.live.None? then ([d], Code(1))
    else if BadName(name) then ([d], Refused)
    else
      var writing := d.(partial := d.partial + {name});
      if f.writeFails then ([d, writing], Escaped)
      else
        var saved := d.(partial := d.partial - {name}, snapshots := d.snapshots[name := Bundle(d, states)]);
        ([d, writing, saved], Code(0))
  }

  /** Wherever a save stops, every snapshot is complete: this one is the old or the new one, the others
      and the databases are untouched. */
  lemma SaveIsAtomic(d: Disk, name: string, states: map<string, Payload>, f: Faults, k: nat)
    requires k < |Save(d, name, states, f).0|
    ensures var x := Save(d, name, states, f).0[k];
      && x.live == d.live && x.bak == d.bak && x.sidecar == d.sidecar
      && (x.snapshots == d.snapshots || x.snapshots == d.snapshots[name := Bundle(d, states)])
  {}

  /** How a save ends, and the snapshot it leaves when it succeeds. */
  lemma SaveExitsExactly(d: Disk, name: string, states: map<string, Payload>, f: Faults)
    ensures var (disks, exit) := Save(d, name, states, f);
      var good := name != "" && '/' !in name && name[0] != '.';
      && (exit == Code(1) <==> d.live.None?)
      && (exit == Refused <==> d.live.Some? && !good)
      && (exit == Escaped <==> d.live.Some? && good && f.writeFails)
      && (exit == Code(0) <==> d.live.Some? && good && !f.writeFails)
      && (exit == Code(0) ==>
            Last(disks).snapshots == d.snapshots[name := Archive(d.live, Some(States(states)), Sound)])
  {
    BadNameExactly(name);
    hide BadName;
  }

  // ---------------------------------------------------------------------------------------------
  // In-memory module state
  // ---------------------------------------------------------------------------------------------

  /** A learning module: what it remembers, what its `dump_state` makes of that (nothing when it is
      missing or raises), and what its `load_state` leaves behind, whether or not it raises half-way. */
  datatype Module = Module(memory: Payload, dump: Payload -> Option<Payload>, load: (Payload, Payload) -> Payload)

  /** The modules that can be imported. */
  type Process = map<string, Module>

  function Dumped(m: Module): Option<Payload> { m.dump(m.memory) }

  function Collected(p: Process, names: seq<string>): map<string, Payload> {
    map m | m in names && m in p && Dumped(p[m]).Some? :: Dumped(p[m]).value
  }

  function LoadedFrom(m: Module, payload: Payload): Module { m.(memory := m.load(m.memory, payload)) }

  function Loaded(p: Process, states: map<string, Payload>): Process {
    map m | m in p :: if m in states then LoadedFrom(p[m], states[m]) else p[m]
  }

  /** The modules after a successful restore has read the sidecar found in the portal directory. */
  function Rehydrated(p: Process, sidecar: Option<Sidecar>): Process {
    match sidecar
    case Some(States(states)) => Loaded(p, states)
    case _ => p
  }

  /** Save, let the world move on, restore: the database is the saved one, every module that could be
      dumped then is loaded with what it dumped, and no other module changed. */
  lemma SaveRestoreRoundTrip(d: Disk, p: Process, names: seq<string>, name: string, f: Faults,
                             later: Disk, q: Process, g: Faults)
    requires Save(d, name, Collected(p, names), f).1 == Code(0)
    requires name in later.snapshots
      && later.snapshots[name] == Last(Save(d, name, Collected(p, names), f).0).snapshots[name]
    requires Restore(later, name, g).1 == Code(0)
    ensures var end := Last(Restore(later, name, g).0); var r := Rehydrated(q, end.sidecar);
      && end.live == d.live
      && r.Keys == q.Keys
      && (forall m <- q | m !in names || m !in p || Dumped(p[m]).None? :: r[m] == q[m])
      && forall m <- q | m in names && m in p && Dumped(p[m]).Some? ::
           r[m] == LoadedFrom(q[m], Dumped(p[m]).value)
  {}

  /** The module's load undoes the dump of another: whatever it remembered before, it remembers that. */
  ghost predicate Undoes(m: Module, dumper: Module) {
    forall memory, x | dumper.dump(x).Some? :: m.load(memory, dumper.dump(x).value) == x
  }

  /** So a module whose load undoes its dump remembers after the restore what it did at the save. */
  lemma MemoryRoundTrip(d: Disk, p: Process, names: seq<string>, name: string, f: Faults,
                        later: Disk, q: Process, g: Faults, m: string)
    requires Save(d, name, Collected(p, names), f).1 == Code(0)
    requires name in later.snapshots
      && later.snapshots[name] == Last(Save(d, name, Collected(p, names), f).0).snapshots[name]
    requires Restore(later, name, g).1 == Code(0)
    requires m in names && m in p && m in q && Dumped(p[m]).Some? && Undoes(q[m], p[m])
    ensures var r := Rehydrated(q, Last(Restore(later, name, g).0).sidecar);
      m in r && r[m].memory == p[m].memory
  {
    SaveRestoreRoundTrip(d, p, names, name, f, later, q, g);
    hide Save, Restore, Rehydrated;
  }

  /** Nothing to load: no sidecar, one that does not parse, or an empty dictionary. */
  predicate Harmless(sidecar: Option<Sidecar>) {
    match sidecar
    case Some(States(states)) => states == map[]
    case _ => true
  }

  /** An archive without a sidecar does not clear an older one from the portal directory.  So a successful
      restore gives every process the modules its archive describes exactly when the archive brings a
      sidecar or the one lying there has nothing to load. */
  lemma MissingSidecarLoadsOldOne(d: Disk, name: string, f: Faults)
    requires Restore(d, name, f).1 == Code(0)
    ensures (forall q: Process ::
               Rehydrated(q, Last(Restore(d, name, f).0).sidecar) == Rehydrated(q, d.snapshots[name].sidecar))
       <==> d.snapshots[name].sidecar.Some? || Harmless(d.sidecar)
  {
    var own, found := d.snapshots[name].sidecar, Last(Restore(d, name, f).0).sidecar;
    assert found == if own.Some? then own else d.sidecar;
    hide Restore;
    if own.None? {
      if Harmless(d.sidecar) {
        forall q: Process ensures Rehydrated(q, found) == q {}
      } else {
        var q := ForgetfulProcess(d.sidecar.value.states);
        assert Rehydrated(q, own) == q;
      }
    }
  }

  /** One module, for which loading the sidecar makes a difference. */
  lemma ForgetfulProcess(states: map<string, Payload>) returns (q: Process)
    requires states != map[]
    ensures Rehydrated(q, Some(States(states))) != q
  {
    var m :| m in states;
    var other := if states[m] == map[] then map["" := Null] else map[];
    q := map[m := Module(other, x => Some(x), (was, payload) => payload)];
    assert Rehydrated(q, Some(States(states)))[m].memory == states[m] != q[m].memory;
  }

  // ---------------------------------------------------------------------------------------------
  // The commands
  // ---------------------------------------------------------------------------------------------

  class Portal {
    var disk: Disk
    var modules: Process
    ghost var states: seq<Disk>

    constructor (disk: Disk, modules: Process)
      ensures this.disk == disk && this.modules == modules && states == [disk]
    {
      this.disk, this.modules, states := disk, modules, [disk];
    }

    /** One change on disk; `states` remembers each. */
    method Become(d: Disk)
      modifies this`disk, this`states
      ensures disk == d && states == old(states) + [d]
    {
      disk, states := d, states + [d];
    }

    method CollectAmbientState(names: seq<string>) returns (out: map<string, Payload>)
      ensures out == Collected(modules, names)
    {
      out := map[];
      for i := 0 to |names|
        invariant out == Collected(modules, names[..i])
      {
        var m := names[i];
        assert names[..i + 1] == names[..i] + [m];
        if m in modules {
          var payload := Dumped(modules[m]);
          if payload.Some? { out := out[m := payload.value]; }
        }
      }
      assert names[..|names|] == names;
    }

    method RestoreAmbientState(sidecar: map<string, Payload>)
      modifies this`modules
      ensures modules == Loaded(old(modules), sidecar)
    {
      ghost var before := modules;
      var left := sidecar.Keys;
      while left != {}
        invariant left <= sidecar.Keys
        invariant modules == Loaded(before, map m | m in sidecar && m !in left :: sidecar[m])
      {
        var m :| m in left;
        if m in modules { modules := modules[m := LoadedFrom(modules[m], sidecar[m])]; }
        left := left - {m};
      }
      assert (map m | m in sidecar && m !in left :: sidecar[m]) == sidecar;
    }

    method CmdSave(name: string, names: seq<string>, f: Faults) returns (exit: Exit)
      requires states != [] && Last(states) == disk
      modifies this
      ensures var r := Save(old(disk), name, Collected(old(modules), names), f);
        exit == r.1 && states == old(states) + r.0[1..] && disk == Last(r.0) && modules == old(modules)
    {
      if disk.live.None? { return Code(1); }
      if BadName(name) { return Refused; }
      var ambient := CollectAmbientState(names);
      Become(disk.(partial := disk.partial + {name}));
      if f.writeFails { return Escaped; }
      assert (old(disk).partial + {name}) - {name} == old(disk).partial - {name};
      Become(disk.(partial := disk.partial - {name},
                   snapshots := disk.snapshots[name := Archive(disk.live, Some(States(ambient)), Sound)]));
      exit := Code(0);
    }

    method MoveAside(f: Faults) returns (stop: Option<Exit>)
      modifies this`disk, this`states
      ensures var r := SetAside(old(disk), f);
        stop == r.1 && states == old(states) + r.0 && disk == Last([old(disk)] + r.0)
    {
      if disk.live.None? { return None; }
      if disk.bak.Some? {
        Become(disk.(bak := Some(Debris)));
        if f.rmFails { return Some(Escaped); }
        Become(disk.(bak := None));
      }
      if f.renameFails { return Some(Code(2)); }
      Become(disk.(live := None, bak := disk.live));
      stop := None;
    }

    method Undo(f: Faults) returns (exit: Exit)
      modifies this`disk, this`states
      ensures var r := RollBack(old(disk), f);
        exit == r.1 && states == old(states) + r.0 && disk == Last([old(disk)] + r.0)
    {
      if disk.live.Some? && !f.debrisStays { Become(disk.(live := None)); }
      if disk.bak.Some? {
        if disk.live.Some? || f.rollbackFails { return Escaped; }
        Become(disk.(live := disk.bak, bak := None));
      }
      exit := Code(3);
    }

    method Extract(a: Archive, f: Faults) returns (exit: Exit)
      modifies this`disk, this`states
      ensures var r := Unpack(old(disk), a, f);
        exit == r.1 && states == old(states) + r.0 && disk == Last([old(disk)] + r.0)
    {
      if a.flaw.Unreadable? { exit := Undo(f); return; }
      if a.flaw.UnsafeMember? { return Refused; }
      var before := disk;
      Become(disk.(live := Some(Debris),
                   sidecar := if f.sidecarLanded && a.sidecar.Some? then a.sidecar else disk.sidecar));
      if f.extractFails { exit := Undo(f); return; }
      Become(before.(live := a.db, sidecar := if a.sidecar.Some? then a.sidecar else before.sidecar));
      exit := Code(0);
    }

    method RestoreFiles(name: string, f: Faults) returns (exit: Exit)
      modifies this`disk, this`states
      ensures var r := RestoreSteps(old(disk), name, f);
        exit == r.1 && states == old(states) + r.0 && disk == Last([old(disk)] + r.0)
    {
      if BadName(name) { return Refused; }
      if name !in disk.snapshots { return Code(1); }
      if f.locked { return Code(2); }
      ghost var start := disk;
      var archive := disk.snapshots[name];
      var stop := MoveAside(f);
      ghost var moved := SetAside(start, f).0;
      if stop.Some? { return stop.value; }
      ghost var middle := states;
      ghost var unpacked := Unpack(disk, archive, f).0;
      exit := Extract(archive, f);
      LastOfParts([start], moved, unpacked);
      assert states == middle + unpacked == old(states) + (moved + unpacked);
    }

    method CmdRestore(name: string, f: Faults) returns (exit: Exit)
      modifies this
      ensures var r := Restore(old(disk), name, f);
        && exit == r.1 && states == old(states) + r.0[1..] && disk == Last(r.0)
        && modules == if r.1 == Code(0) then Rehydrated(old(modules), disk.sidecar) else old(modules)
    {
      exit := RestoreFiles(name, f);
      if exit == Code(0) && disk.sidecar.Some? && disk.sidecar.value.States? {
        RestoreAmbientState(disk.sidecar.value.states);
      }
    }
  }

  lemma LastOfParts(a: seq<Disk>, b: seq<Disk>, c: seq<Disk>)
    requires a != []
    ensures Last([Last(a + b)] + c) == Last(a + (b + c))
  {}
}
