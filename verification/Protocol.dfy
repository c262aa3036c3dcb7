/** The engine as a transition system: any number of threads run commands
    against shared state. A local command holds the control gate shared, reads a
    versioned cell, plans, locks the cell, checks the version, reserves sequence
    numbers, appends its batch to the log and only then changes the cell. An
    exclusive command holds the gate alone. Any thread may be preempted between
    any two steps and the process may crash at any point
    (crates/latlng-core/src/commands.rs, internals.rs, engine.rs, admin.rs). */
module Protocol {
  import opened Types
  import opened Fields
  import opened Geometry
  import opened Catalog
  import opened Compaction
  import JsonPath

  const U64_MAX: nat := 0xFFFF_FFFF_FFFF_FFFF

  // Commands.

  datatype SetCondition = Always | Nx | Xx

  datatype Edit = JsetEdit(path: string, value: string, raw: bool) | JdelEdit(path: string)

  /** A command on one object. */
  datatype Op =
    | SetOp(coll: string, id: string, geo: Geo, updates: seq<FieldEntry>, ttl: Option<nat>, condition: SetCondition)
    | DelOp(coll: string, id: string)
    | FsetOp(coll: string, id: string, updates: seq<FieldEntry>)
    | ExpireOp(coll: string, id: string, seconds: nat)
    | PersistOp(coll: string, id: string)
    | EditOp(coll: string, id: string, edit: Edit)

  /** The edited document, if the edit succeeds and leaves a valid geometry. */
  function Edited(env: Env, edit: Edit, doc: Json): Option<Json> {
    match edit
    case JsetEdit(path, value, raw) =>
      var r := JsonPath.Set(doc, JsonPath.Segments(path), Payload(env, value, raw));
      if r.ok && env.geometryOk(r.doc) then Some(r.doc) else None
    case JdelEdit(path) =>
      var r := JsonPath.Delete(doc, JsonPath.Segments(path));
      if r.removal != JsonPath.BadPath && env.geometryOk(r.doc) then Some(r.doc) else None
  }

  /** Whether the command, having read `before`, goes on to commit. */
  predicate Proceeds(env: Env, op: Op, before: Option<Object>) {
    match op
    case SetOp(_, _, _, _, _, Nx) => before.None?
    case SetOp(_, _, _, _, _, Xx) => before.Some?
    case SetOp(_, _, _, _, _, Always) => true
    case EditOp(_, _, edit) =>
      before.Some? && before.value.geo.GeoJson? && Edited(env, edit, before.value.geo.doc).Some?
    case _ => before.Some?
  }

  function Deadline(now: nat, seconds: nat): nat {
    var t := now + seconds * 1000;
    if t <= U64_MAX then t else U64_MAX
  }

  /** The deadline a command computes from the clock. */
  function DeadlineOf(op: Op, now: nat): Option<nat> {
    match op
    case SetOp(_, _, _, _, ttl, _) => if ttl.Some? then Some(Deadline(now, ttl.value)) else None
    case ExpireOp(_, _, seconds) => Some(Deadline(now, seconds))
    case _ => None
  }

  /** The commands the batch logs. */
  ghost function Commands(op: Op, before: Option<Object>, deadline: Option<nat>): seq<Command> {
    match op
    case SetOp(coll, id, geo, updates, _, _) =>
      [SetPersisted(coll, id, geo, MapToEntries(Merged(before, updates)), deadline)]
    case DelOp(coll, id) => [Del(coll, id)]
    case FsetOp(coll, id, updates) => [Fset(coll, id, updates)]
    case ExpireOp(coll, id, _) => [ExpireAt(coll, id, if deadline.Some? then deadline.value else 0)]
    case PersistOp(coll, id) => [Persist(coll, id)]
    case EditOp(coll, id, edit) =>
      [match edit
       case JsetEdit(path, value, raw) => Jset(coll, id, path, value, raw)
       case JdelEdit(path) => Jdel(coll, id, path)] +
      if before.Some? && before.value.expiresAt.Some? then [Persist(coll, id)] else []
  }

  /** A batch: the commands, then the webhook records of the planned fence events. */
  ghost function Batch(commands: seq<Command>, hooks: nat): (b: seq<Record>)
    ensures |b| == |commands| + hooks
  {
    seq(|commands| + hooks, i requires 0 <= i < |commands| + hooks =>
      if i < |commands| then Cmd(commands[i]) else Webhook(i))
  }

  /** What applying a logged command to the cell does: the new contents, whether
      the version is bumped, and whether the command finds its object missing and
      starts over. */
  datatype Commit = Commit(objects: Objects, bumped: bool, retry: bool)

  function Committed(env: Env, op: Op, before: Option<Object>, deadline: Option<nat>, objects: Objects): Commit {
    match op
    case SetOp(_, id, geo, updates, _, _) =>
      if Indexable(env, geo) then
        Commit(objects[id := Object(id, geo, Merged(before, updates), deadline)], true, false)
      else Commit(objects, false, false)
    case DelOp(_, id) => Commit(objects - {id}, id in objects, false)
    case FsetOp(_, id, updates) =>
      if id in objects then Commit(WithFields(objects, id, updates), true, false)
      else Commit(objects, false, true)
    case ExpireOp(_, id, _) =>
      if id in objects then Commit(WithExpiry(objects, id, deadline), true, false)
      else Commit(objects, false, true)
    case PersistOp(_, id) =>
      if id in objects then Commit(WithExpiry(objects, id, None), true, false)
      else Commit(objects, false, true)
    case EditOp(_, id, edit) =>
      if id !in objects || before.None? || !before.value.geo.GeoJson?
         || Edited(env, edit, before.value.geo.doc).None?
      then Commit(objects, true, false)
      else
        var geo := GeoJson(Edited(env, edit, before.value.geo.doc).value);
        var edited := WithGeo(objects, id, geo);
        if !Indexable(env, geo) then Commit(edited, false, false)
        else if before.value.expiresAt.Some? then Commit(WithExpiry(edited, id, None), true, false)
        else Commit(edited, true, false)
  }

  /** A command under the exclusive gate. */
  datatype XOp =
    | XLocal(op: Op)
    | XCreate(coll: string)
    | XDrop(coll: string)
    | XRename(coll: string, newName: string, nxOnly: bool)
    | XSetChannel(name: string, def: GeofenceDef)
    | XDelChannel(name: string)
    | XPDelChannel(pattern: string)
    | XSetHook(name: string, endpoint: string, def: GeofenceDef)
    | XDelHook(name: string)
    | XPDelHook(pattern: string)
    | XFlush

  function Before(db: Db, x: XOp): Option<Object> {
    if x.XLocal? then Lookup(ObjectsOf(db, x.op.coll), x.op.id) else None
  }

  predicate XProceeds(env: Env, db: Db, x: XOp) {
    match x
    case XLocal(op) => (op.SetOp? || op.DelOp? || op.FsetOp?) && Proceeds(env, op, Before(db, x))
    case XCreate(coll) => coll !in db.colls
    case XDrop(coll) => coll in db.colls
    case XRename(coll, newName, nxOnly) => coll in db.colls && !(nxOnly && newName in db.colls)
    case XSetChannel(_, def) => Evaluable(def)
    case XSetHook(_, _, def) => Evaluable(def)
    case _ => true
  }

  ghost function XCommands(x: XOp, before: Option<Object>, deadline: Option<nat>): seq<Command> {
    match x
    case XLocal(op) => Commands(op, before, deadline)
    case XCreate(coll) => [CreateCollection(coll)]
    case XDrop(coll) => [DropCollection(coll)]
    case XRename(coll, newName, _) => [Rename(coll, newName)]
    case XSetChannel(name, def) => [SetChannel(name, def)]
    case XDelChannel(name) => [DelChannel(name)]
    case XPDelChannel(pattern) => [PDelChannel(pattern)]
    case XSetHook(name, endpoint, def) => [SetHook(name, endpoint, def)]
    case XDelHook(name) => [DelHook(name)]
    case XPDelHook(pattern) => [PDelHook(pattern)]
    case XFlush => [FlushDb]
  }

  // State.

  datatype Cell = Cell(version: nat, objects: Objects)

  /** `version.saturating_add(1)`. */
  function Bumped(version: nat): nat {
    if version < U64_MAX then version + 1 else version
  }

  datatype Pc =
    | Idle
    | Gated(op: Op)
    | Handled(op: Op, cell: nat, deadline: Option<nat>)
    | Planned(op: Op, cell: nat, before: Option<Object>, deadline: Option<nat>, hooks: nat, version: nat)
    | Locked(op: Op, cell: nat, before: Option<Object>, deadline: Option<nat>, hooks: nat)
    | Reserved(op: Op, cell: nat, before: Option<Object>, deadline: Option<nat>, hooks: nat, first: nat)
    | Appended(op: Op, cell: nat, before: Option<Object>, deadline: Option<nat>)
    | Finishing
    | Exclusive
    | XReserved(x: XOp, before: Option<Object>, deadline: Option<nat>, hooks: nat, first: nat)
    | XAppended(x: XOp, before: Option<Object>, deadline: Option<nat>)
    | XFlushed

  predicate HasHandle(pc: Pc) {
    pc.Handled? || pc.Planned? || pc.Locked? || pc.Reserved? || pc.Appended?
  }

  predicate HoldsLock(pc: Pc) {
    pc.Locked? || pc.Reserved? || pc.Appended?
  }

  predicate InExclusive(pc: Pc) {
    pc.Exclusive? || pc.XReserved? || pc.XAppended? || pc.XFlushed?
  }

  predicate InShared(pc: Pc) {
    !pc.Idle? && !InExclusive(pc)
  }

  /** How far memory and log may have drifted apart: not at all, by objects dropped
      from either one after their deadline, or by an object that was dropped from
      the log and then brought back in memory. */
  datatype Drift = Same | Swept | Revived

  /** `names` maps a collection to its shared cell; `drift` is bookkeeping that no
      step reads. */
  datatype State = State(
    names: map<string, nat>,
    cells: seq<Cell>,
    channels: map<string, GeofenceDef>,
    hooks: map<string, Hook>,
    log: seq<Entry>,
    nextSequence: nat,
    clock: nat,
    drift: Drift,
    threads: seq<Pc>)

  ghost predicate Init(s: State) {
    s.names == map[] && s.cells == [] && s.channels == map[] && s.hooks == map[] &&
    s.log == [] && s.nextSequence == 0 && s.drift == Same &&
    forall t :: 0 <= t < |s.threads| ==> s.threads[t].Idle?
  }

  function Contents(names: map<string, nat>, cells: seq<Cell>): map<string, Objects> {
    map n | n in names && names[n] < |cells| :: cells[names[n]].objects
  }

  /** The database as the live cells hold it. */
  function View(s: State): Db {
    Db(Contents(s.names, s.cells), s.channels, s.hooks)
  }

  function Goto(s: State, t: nat, pc: Pc): (r: State)
    requires t < |s.threads|
  {
    s.(threads := s.threads[t := pc])
  }

  ghost predicate Unlocked(s: State, c: nat) {
    forall u :: 0 <= u < |s.threads| && HoldsLock(s.threads[u]) ==> s.threads[u].cell != c
  }

  ghost predicate NoneShared(s: State) {
    forall u :: 0 <= u < |s.threads| ==> !InShared(s.threads[u])
  }

  ghost predicate NoneExclusive(s: State) {
    forall u :: 0 <= u < |s.threads| ==> !InExclusive(s.threads[u])
  }

  /** The last entry carries the highest number; every shipped backend keeps
      this by rejecting a batch that does not continue its last sequence. */
  ghost predicate LastIsHighest(log: seq<Entry>) {
    log != [] ==> forall i :: 0 <= i < |log| ==> log[i].number <= log[|log| - 1].number
  }

  function LastNumber(log: seq<Entry>): nat {
    if log == [] then 0 else log[|log| - 1].number
  }

  datatype Step =
    | Start(t: nat, op: Op)
    | FindCell(t: nat)
    | Plan(t: nat, hooks: nat)
    | Lock(t: nat)
    | Reserve(t: nat)
    | Append(t: nat, ok: bool)
    | Mutate(t: nat)
    | Finish(t: nat)
    | Abort(t: nat)
    | StartX(t: nat)
    | ReserveX(t: nat, x: XOp, hooks: nat)
    | AppendX(t: nat, ok: bool)
    | MutateX(t: nat)
    | ClearLog(t: nat, ok: bool)
    | Gc(t: nat)
    | Shrink(t: nat)
    | FinishX(t: nat)
    | Tick(now: nat)
    | Restart(order: seq<Entry>, names: map<string, nat>, cells: seq<Cell>)

  /** Sets store geometries that have an envelope. */
  predicate Stores(env: Env, op: Op) {
    op.SetOp? ==> Indexable(env, op.geo)
  }

  /** The command is an edit that leaves a valid document without an envelope. */
  predicate LosesEnvelope(env: Env, op: Op, before: Option<Object>) {
    op.EditOp? && Proceeds(env, op, before) &&
    !Indexable(env, GeoJson(Edited(env, op.edit, before.value.geo.doc).value))
  }

  ghost predicate EnabledLocal(env: Env, s: State, step: Step, pc: Pc) {
    match step
    case Start(_, op) => pc.Idle? && NoneExclusive(s) && Stores(env, op)
    case FindCell(_) => pc.Gated?
    case Plan(_, hooks) =>
      pc.Handled? && pc.cell < |s.cells| && Unlocked(s, pc.cell) &&
      (pc.op.SetOp? || pc.op.DelOp? || pc.op.FsetOp? || hooks == 0) &&
      !LosesEnvelope(env, pc.op, Lookup(s.cells[pc.cell].objects, pc.op.id))
    case Lock(_) => pc.Planned? && pc.cell < |s.cells| && Unlocked(s, pc.cell) && pc.version < U64_MAX
    case Reserve(_) => pc.Locked?
    case Append(_, _) => pc.Reserved?
    case Mutate(_) => pc.Appended? && pc.cell < |s.cells|
    case Finish(_) => pc.Finishing?
    case Abort(_) => pc.Gated? || pc.Handled? || pc.Planned?
    case _ => false
  }

  ghost predicate EnabledExclusive(env: Env, s: State, step: Step, pc: Pc) {
    match step
    case StartX(_) => pc.Idle? && NoneExclusive(s) && NoneShared(s)
    case ReserveX(_, x, hooks) =>
      pc.Exclusive? && XProceeds(env, View(s), x) &&
      (x.XLocal? ==> Stores(env, x.op)) && (x.XLocal? || x.XDrop? || hooks == 0)
    case AppendX(_, _) => pc.XReserved?
    case MutateX(_) => pc.XAppended?
    case ClearLog(_, _) => pc.XFlushed?
    case Gc(_) => pc.Exclusive?
    case Shrink(_) => pc.Exclusive?
    case FinishX(_) => pc.Exclusive?
    case _ => false
  }

  /** The log may be replayed as appended or by sequence number; the rebuilt
      cells hold what replay gives, without the objects already due. */
  ghost predicate EnabledRestart(env: Env, s: State, order: seq<Entry>, names: map<string, nat>, cells: seq<Cell>) {
    (order == s.log || (Ascending(order) && multiset(order) == multiset(s.log))) &&
    LastIsHighest(order) &&
    (forall n :: n in names ==> names[n] < |cells|) &&
    (forall m, n :: m in names && n in names && m != n ==> names[m] != names[n]) &&
    Contents(names, cells) == PurgeDb(s.clock, Replay(env, Records(order))).colls
  }

  ghost predicate Enabled(env: Env, s: State, step: Step) {
    match step
    case Tick(now) => now >= s.clock
    case Restart(order, names, cells) => EnabledRestart(env, s, order, names, cells)
    case _ =>
      step.t < |s.threads| &&
      (EnabledLocal(env, s, step, s.threads[step.t]) || EnabledExclusive(env, s, step, s.threads[step.t]))
  }

  /** EXPIRE computes its deadline once, before the retry loop; a set computes
      it again with every plan. */
  function PlannedDeadline(pc: Pc, now: nat): Option<nat>
    requires pc.Handled?
  {
    if pc.op.ExpireOp? then pc.deadline else DeadlineOf(pc.op, now)
  }

  function Drifted(s: State): Drift {
    if s.drift.Same? then Swept else s.drift
  }

  /** The command leaves the object alive after `now`, whatever deadline it had. */
  predicate Prolongs(op: Op, o: Object, deadline: Option<nat>, now: nat) {
    match op
    case ExpireOp(_, _, _) => deadline.Some? && deadline.value > now
    case PersistOp(_, _) => true
    case EditOp(_, _, _) => o.expiresAt.Some?
    case _ => false
  }

  /** A logged command that prolongs an object memory still holds although a log
      rewrite already left it out. */
  predicate Revives(env: Env, s: State, pc: Pc)
    requires pc.Reserved?
  {
    !s.drift.Same? && pc.before.Some? &&
    pc.op.id !in ObjectsOf(Replay(env, Records(s.log)), pc.op.coll) &&
    Prolongs(pc.op, pc.before.value, pc.deadline, s.clock)
  }

  function CellAfter(cell: Cell, commit: Commit): Cell {
    Cell(if commit.bumped then Bumped(cell.version) else cell.version, commit.objects)
  }

  function SweptCells(s: State): (cells: seq<Cell>)
    ensures |cells| == |s.cells|
    ensures forall c :: 0 <= c < |cells| ==>
      cells[c].objects == (if c in s.names.Values then Purge(s.clock, s.cells[c].objects) else s.cells[c].objects)
    ensures forall c :: 0 <= c < |cells| ==>
      cells[c] == s.cells[c] || cells[c].version == Bumped(s.cells[c].version)
  {
    seq(|s.cells|, c requires 0 <= c < |s.cells| =>
      var kept := Purge(s.clock, s.cells[c].objects);
      if c in s.names.Values && kept != s.cells[c].objects then Cell(Bumped(s.cells[c].version), kept)
      else s.cells[c])
  }

  /** The in-memory part of an exclusive command. */
  function ApplyX(env: Env, s: State, x: XOp, before: Option<Object>, deadline: Option<nat>): State {
    match x
    case XLocal(op) =>
      if op.coll in s.names then
        var c := s.names[op.coll];
        if c < |s.cells| then
          s.(cells := s.cells[c := CellAfter(s.cells[c], Committed(env, op, before, deadline, s.cells[c].objects))])
        else s
      else if op.SetOp? then
        s.(names := s.names[op.coll := |s.cells|],
           cells := s.cells + [CellAfter(Cell(0, map[]), Committed(env, op, before, deadline, map[]))])
      else s
    case XCreate(coll) => s.(names := s.names[coll := |s.cells|], cells := s.cells + [Cell(0, map[])])
    case XDrop(coll) => s.(names := s.names - {coll})
    case XRename(coll, newName, _) =>
      if coll in s.names && s.names[coll] < |s.cells| then
        var c := s.names[coll];
        s.(names := (s.names - {coll})[newName := c],
           cells := s.cells[c := s.cells[c].(version := Bumped(s.cells[c].version))])
      else s
    case XSetChannel(name, def) => s.(channels := s.channels[name := def])
    case XDelChannel(name) => s.(channels := s.channels - {name})
    case XPDelChannel(pattern) => s.(channels := s.channels - Matching(env, pattern, s.channels))
    case XSetHook(name, endpoint, def) => s.(hooks := s.hooks[name := Hook(endpoint, def)])
    case XDelHook(name) => s.(hooks := s.hooks - {name})
    case XPDelHook(pattern) => s.(hooks := s.hooks - Matching(env, pattern, s.hooks))
    case XFlush => s.(names := map[], channels := map[], hooks := map[])
  }

  ghost function ExecLocal(env: Env, s: State, step: Step, t: nat): State
    requires t < |s.threads| && EnabledLocal(env, s, step, s.threads[t])
  {
    var pc := s.threads[t];
    match step
    case Start(_, op) => Goto(s, t, Gated(op))
    case FindCell(_) =>
      Goto(s, t, if pc.op.coll in s.names then Handled(pc.op, s.names[pc.op.coll], DeadlineOf(pc.op, s.clock)) else Finishing)
    case Plan(_, hooks) =>
      var cell := s.cells[pc.cell];
      var before := Lookup(cell.objects, pc.op.id);
      Goto(s, t,
            if Proceeds(env, pc.op, before)
            then Planned(pc.op, pc.cell, before, PlannedDeadline(pc, s.clock), hooks, cell.version)
            else Finishing)
    case Lock(_) =>
      Goto(s, t,
            if s.cells[pc.cell].version == pc.version
            then Locked(pc.op, pc.cell, pc.before, pc.deadline, pc.hooks)
            else Handled(pc.op, pc.cell, pc.deadline))
    case Reserve(_) =>
      var count := |Batch(Commands(pc.op, pc.before, pc.deadline), pc.hooks)|;
      Goto(s.(nextSequence := s.nextSequence + count), t,
            Reserved(pc.op, pc.cell, pc.before, pc.deadline, pc.hooks, s.nextSequence + 1))
    case Append(_, ok) =>
      if ok then
        Goto(s.(log := s.log + Numbered(pc.first, Batch(Commands(pc.op, pc.before, pc.deadline), pc.hooks)),
                drift := if Revives(env, s, pc) then Revived else s.drift), t,
              Appended(pc.op, pc.cell, pc.before, pc.deadline))
      else Goto(s, t, Finishing)
    case Mutate(_) =>
      var commit := Committed(env, pc.op, pc.before, pc.deadline, s.cells[pc.cell].objects);
      Goto(s.(cells := s.cells[pc.cell := CellAfter(s.cells[pc.cell], commit)]), t,
            if commit.retry then Handled(pc.op, pc.cell, pc.deadline) else Finishing)
    case Finish(_) => Goto(s, t, Idle)
    case Abort(_) => Goto(s, t, Idle)
  }

  ghost function ExecExclusive(env: Env, s: State, step: Step, t: nat): State
    requires t < |s.threads| && EnabledExclusive(env, s, step, s.threads[t])
  {
    var pc := s.threads[t];
    match step
    case StartX(_) => Goto(s, t, Exclusive)
    case ReserveX(_, x, hooks) =>
      var before := Before(View(s), x);
      var deadline := if x.XLocal? then DeadlineOf(x.op, s.clock) else None;
      var count := |Batch(XCommands(x, before, deadline), hooks)|;
      Goto(s.(nextSequence := s.nextSequence + count), t, XReserved(x, before, deadline, hooks, s.nextSequence + 1))
    case AppendX(_, ok) =>
      if ok then
        Goto(s.(log := s.log + Numbered(pc.first, Batch(XCommands(pc.x, pc.before, pc.deadline), pc.hooks))), t,
              XAppended(pc.x, pc.before, pc.deadline))
      else Goto(s, t, Exclusive)
    case MutateX(_) =>
      Goto(ApplyX(env, s, pc.x, pc.before, pc.deadline), t, if pc.x.XFlush? then XFlushed else Exclusive)
    case ClearLog(_, ok) => Goto(if ok then s.(log := [], drift := Same) else s, t, Exclusive)
    case Gc(_) => s.(cells := SweptCells(s), drift := Drifted(s))
    case Shrink(_) =>
      var records := Snapshot(View(s), s.clock);
      var last := LastNumber(s.log);
      s.(log := Numbered(FirstNumber(last, |records|), records), nextSequence := NextAfterRewrite(last, |records|),
         drift := if NothingDue(View(s), s.clock) then Same else Swept)
    case FinishX(_) => Goto(s, t, Idle)
  }

  ghost function Exec(env: Env, s: State, step: Step): State
    requires Enabled(env, s, step)
  {
    match step
    case Tick(now) => s.(clock := now)
    case Restart(order, names, cells) =>
      var db := Replay(env, Records(order));
      State(names, cells, db.channels, db.hooks, s.log, LastNumber(order), s.clock, Swept,
            seq(|s.threads|, _ => Idle))
    case _ =>
      if EnabledLocal(env, s, step, s.threads[step.t]) then ExecLocal(env, s, step, step.t)
      else ExecExclusive(env, s, step, step.t)
  }

  // Runs.

  ghost predicate Run(env: Env, s: State, steps: seq<Step>)
    decreases |steps|
  {
    steps == [] || (Enabled(env, s, steps[0]) && Run(env, Exec(env, s, steps[0]), steps[1..]))
  }

  ghost function After(env: Env, s: State, steps: seq<Step>): State
    requires Run(env, s, steps)
    decreases |steps|
  {
    if steps == [] then s else After(env, Exec(env, s, steps[0]), steps[1..])
  }
}
