/** fileee/session.go: FileSessionStore.Save (temporary file, then rename) and Load, run by any number of
    goroutines or processes at once. The file system is a directory of names over inodes: a writer holds
    its inode, rename and remove go by name. A process may crash between any two of its system calls. */
module SessionFile {
  import opened Optional

  type Bytes = seq<nat>

  datatype Name = Target | Temp(n: nat)

  /** Inode 0 is the file that is there at first, inode i + 1 the one that Save number i creates. */
  type Inode = nat

  datatype SavePc =
    | MakingDir
    | Encoding
    | Creating
    | Chmodding
    | Writing
    | Closing
    | Renaming
    | CleaningUp(ok: bool)
    | Returned(ok: bool)
    | Crashed(at: SavePc)

  datatype Save = Save(payload: Bytes, pc: SavePc, tmp: nat)

  datatype Load = Opening | Reading(ino: Inode, got: Bytes) | Loaded(content: Option<Bytes>)

  /** private: the files with mode 0600; closed: those closed without an error; renamed: the Saves whose rename
      succeeded, in order. */
  datatype State = State(
    dir: map<Name, Inode>, data: map<Inode, Bytes>, private: set<Inode>, closed: set<Inode>,
    saves: seq<Save>, loads: seq<Load>, renamed: seq<nat>)

  datatype Action =
    | MkDir(ok: bool)
    | Encode(ok: bool)
    | Create(name: nat, ok: bool)
    | Chmod(ok: bool)
    | Write(n: nat, ok: bool)
    | Close(ok: bool)
    | Rename(ok: bool)
    | CleanUp
    | Crash
    | Open
    | Read(n: nat)

  type Schedule = seq<(nat, Action)>

  function Init(initial: Option<Bytes>, payloads: seq<Bytes>, loaders: nat): State {
    State(
      if initial.Some? then map[Target := 0] else map[],
      if initial.Some? then map[0 := initial.value] else map[],
      {}, {},
      seq(|payloads|, i requires 0 <= i < |payloads| => Save(payloads[i], MakingDir, 0)),
      seq(loaders, i => Opening),
      [])
  }

  function Go(s: State, i: nat, pc: SavePc): State
    requires i < |s.saves|
  {
    s.(saves := s.saves[i := s.saves[i].(pc := pc)])
  }

  /** The Save has a file under its temporary name. */
  predicate HasFile(pc: SavePc) {
    || pc.Chmodding? || pc.Writing? || pc.Closing? || pc.Renaming? || pc == CleaningUp(false)
    || (pc.Crashed? && HasFile(pc.at))
  }

  /** It has one, or still owes the deferred Remove of that name. */
  predicate HoldsName(pc: SavePc) { HasFile(pc) || pc.CleaningUp? }

  /** os.CreateTemp picks a name that does not exist; with `notOwed` it is also none that a running Save
      will still remove. */
  predicate MayCreate(notOwed: bool, s: State, name: nat) {
    && Temp(name) !in s.dir
    && (notOwed ==> forall j :: 0 <= j < |s.saves| && HoldsName(s.saves[j].pc) ==> s.saves[j].tmp != name)
  }

  function SaveStep(notOwed: bool, s: State, i: nat, a: Action): Option<State>
    requires i < |s.saves|
  {
    var me, ino := s.saves[i], i + 1;
    match (me.pc, a)
    case (MakingDir, MkDir(ok)) => Some(Go(s, i, if ok then Encoding else Returned(false)))
    case (Encoding, Encode(ok)) => Some(Go(s, i, if ok then Creating else Returned(false)))
    case (Creating, Create(name, ok)) =>
      if !ok then Some(Go(s, i, Returned(false)))
      else if !MayCreate(notOwed, s, name) then None
      else Some(s.(dir := s.dir[Temp(name) := ino], data := s.data[ino := []],
                   saves := s.saves[i := me.(pc := Chmodding, tmp := name)]))
    case (Chmodding, Chmod(ok)) =>
      if ok then Some(Go(s.(private := s.private + {ino}), i, Writing)) else Some(Go(s, i, CleaningUp(false)))
    case (Writing, Write(n, ok)) =>
      if ino !in s.data then None
      else if !ok then Some(Go(s, i, CleaningUp(false)))
      else
        var to := |s.data[ino]| + n;
        if to > |me.payload| then None
        else
          var written := s.(data := s.data[ino := me.payload[..to]]);
          Some(if to == |me.payload| then Go(written, i, Closing) else written)
    case (Closing, Close(ok)) =>
      if ok then Some(Go(s.(closed := s.closed + {ino}), i, Renaming)) else Some(Go(s, i, CleaningUp(false)))
    case (Renaming, Rename(ok)) =>
      if !ok || Temp(me.tmp) !in s.dir then Some(Go(s, i, CleaningUp(false)))
      else
        var moved := s.(dir := s.dir[Target := s.dir[Temp(me.tmp)]] - {Temp(me.tmp)}, renamed := s.renamed + [i]);
        Some(Go(moved, i, CleaningUp(true)))
    case (CleaningUp(ok), CleanUp) => Some(Go(s.(dir := s.dir - {Temp(me.tmp)}), i, Returned(ok)))
    case (pc, Crash) => if pc.Returned? || pc.Crashed? then None else Some(Go(s, i, Crashed(pc)))
    case _ => None
  }

  /** os.ReadFile: open, then read in pieces until the end of the file. */
  function LoadStep(s: State, i: nat, a: Action): Option<State>
    requires i < |s.loads|
  {
    match (s.loads[i], a)
    case (Opening, Open) =>
      Some(s.(loads := s.loads[i := if Target in s.dir then Reading(s.dir[Target], []) else Loaded(None)]))
    case (Reading(ino, got), Read(n)) =>
      if ino !in s.data || |got| > |s.data[ino]| then None
      else if |got| == |s.data[ino]| then Some(s.(loads := s.loads[i := Loaded(Some(got))]))
      else if n == 0 || |got| + n > |s.data[ino]| then None
      else Some(s.(loads := s.loads[i := Reading(ino, got + s.data[ino][|got|..|got| + n])]))
    case _ => None
  }

  function Step(notOwed: bool, s: State, i: nat, a: Action): Option<State> {
    if a.Open? || a.Read? then (if i < |s.loads| then LoadStep(s, i, a) else None)
    else if i < |s.saves| then SaveStep(notOwed, s, i, a)
    else None
  }

  function Exec(notOwed: bool, s: State, sched: Schedule): Option<State>
    decreases |sched|
  {
    if sched == [] then Some(s)
    else match Step(notOwed, s, sched[0].0, sched[0].1)
      case None => None
      case Some(t) => Exec(notOwed, t, sched[1..])
  }

  // ---------------------------------------------------------------- the invariant

  predicate Complete(pc: SavePc) {
    || pc.Closing? || pc.Renaming? || pc == CleaningUp(true) || pc == Returned(true)
    || (pc.Crashed? && Complete(pc.at))
  }

  predicate Renamed(pc: SavePc) {
    pc == CleaningUp(true) || pc == Returned(true) || (pc.Crashed? && Renamed(pc.at))
  }

  predicate PastChmod(pc: SavePc) {
    pc.Writing? || Complete(pc) || (pc.Crashed? && PastChmod(pc.at))
  }

  predicate PastClose(pc: SavePc) {
    pc.Renaming? || Renamed(pc) || (pc.Crashed? && PastClose(pc.at))
  }

  lemma RenamedComplete(pc: SavePc)
    requires Renamed(pc)
    ensures Complete(pc) && PastChmod(pc) && PastClose(pc)
  {}

  predicate SaveInv(s: State, i: nat)
    requires i < |s.saves|
  {
    var me, ino := s.saves[i], i + 1;
    && (HasFile(me.pc) ==> Temp(me.tmp) in s.dir && s.dir[Temp(me.tmp)] == ino && ino in s.data)
    && (ino in s.data ==> s.data[ino] <= me.payload)
    && (Complete(me.pc) ==> ino in s.data && s.data[ino] == me.payload)
    && (PastChmod(me.pc) || (ino in s.data && s.data[ino] != []) ==> ino in s.private)
    && (PastClose(me.pc) ==> ino in s.closed)
    && (i in s.renamed <==> Renamed(me.pc))
  }

  /** Every temporary name in the directory belongs to the Save that created it and has not given it up. */
  ghost predicate NamesOwned(s: State) {
    forall n :: Temp(n) in s.dir ==>
                  1 <= s.dir[Temp(n)] <= |s.saves|
                  && s.saves[s.dir[Temp(n)] - 1].tmp == n && HasFile(s.saves[s.dir[Temp(n)] - 1].pc)
  }

  predicate TmpsApart(s: State) {
    forall i, j :: 0 <= i < j < |s.saves| && HoldsName(s.saves[i].pc) && HoldsName(s.saves[j].pc) ==>
                     s.saves[i].tmp != s.saves[j].tmp
  }

  /** The target is what the last rename put there, or what was there at first. */
  predicate TargetInv(initial: Option<Bytes>, s: State) {
    if s.renamed == [] then
      if initial.Some? then Target in s.dir && s.dir[Target] == 0 else Target !in s.dir
    else Target in s.dir && s.dir[Target] == s.renamed[|s.renamed| - 1] + 1
  }

  /** A file that will not be written again: the first one, or one that was renamed to the target. */
  predicate Settled(initial: Option<Bytes>, s: State, ino: Inode) {
    if ino == 0 then initial.Some? else ino - 1 in s.renamed && ino - 1 < |s.saves|
  }

  function ContentOf(initial: Option<Bytes>, s: State, ino: Inode): Bytes
    requires Settled(initial, s, ino)
  {
    if ino == 0 then initial.value else s.saves[ino - 1].payload
  }

  ghost predicate LoadInv(initial: Option<Bytes>, s: State, l: Load) {
    match l
    case Opening => true
    case Reading(ino, got) => Settled(initial, s, ino) && got <= ContentOf(initial, s, ino)
    case Loaded(None) => initial.None?
    case Loaded(Some(content)) => exists ino: Inode :: Settled(initial, s, ino) && content == ContentOf(initial, s, ino)
  }

  ghost predicate Inv(initial: Option<Bytes>, s: State) {
    && (forall i :: 0 <= i < |s.saves| ==> SaveInv(s, i))
    && (forall i :: i in s.renamed ==> i < |s.saves|)
    && NamesOwned(s)
    && TmpsApart(s)
    && TargetInv(initial, s)
    && (initial.Some? ==> 0 in s.data && s.data[0] == initial.value)
    && (forall k :: 0 <= k < |s.loads| ==> LoadInv(initial, s, s.loads[k]))
  }

  lemma InitInv(initial: Option<Bytes>, payloads: seq<Bytes>, loaders: nat)
    ensures Inv(initial, Init(initial, payloads, loaders))
  {}

  /** What a Load has seen stays seen: settled files keep their content and stay settled. */
  lemma LoadKeeps(initial: Option<Bytes>, s: State, t: State, l: Load)
    requires LoadInv(initial, s, l) && |t.saves| == |s.saves|
    requires forall i :: 0 <= i < |s.saves| ==> t.saves[i].payload == s.saves[i].payload
    requires forall i :: i in s.renamed ==> i in t.renamed
    ensures LoadInv(initial, t, l)
  {
    if l.Loaded? && l.content.Some? {
      var ino: Inode :| Settled(initial, s, ino) && l.content.value == ContentOf(initial, s, ino);
      assert Settled(initial, t, ino) && l.content.value == ContentOf(initial, t, ino);
    }
  }

  lemma LoadsKeep(initial: Option<Bytes>, s: State, t: State)
    requires Inv(initial, s) && t.loads == s.loads && |t.saves| == |s.saves|
    requires forall i :: 0 <= i < |s.saves| ==> t.saves[i].payload == s.saves[i].payload
    requires forall i :: i in s.renamed ==> i in t.renamed
    ensures forall k :: 0 <= k < |t.loads| ==> LoadInv(initial, t, t.loads[k])
  {
    forall k | 0 <= k < |t.loads| ensures LoadInv(initial, t, t.loads[k]) {
      LoadKeeps(initial, s, t, s.loads[k]);
    }
  }

  /** Steps that only move the program counter. */
  lemma GoKeepsInv(initial: Option<Bytes>, s: State, i: nat, pc: SavePc)
    requires Inv(initial, s) && i < |s.saves|
    requires HasFile(pc) == HasFile(s.saves[i].pc) && (HoldsName(pc) ==> HoldsName(s.saves[i].pc))
    requires Complete(pc) ==> Complete(s.saves[i].pc)
    requires (PastChmod(pc) ==> PastChmod(s.saves[i].pc)) && (PastClose(pc) ==> PastClose(s.saves[i].pc))
    requires Renamed(pc) == Renamed(s.saves[i].pc)
    ensures Inv(initial, Go(s, i, pc))
  {
    var t := Go(s, i, pc);
    LoadsKeep(initial, s, t);
    forall j | 0 <= j < |t.saves| ensures SaveInv(t, j) {
      assert SaveInv(s, j);
    }
  }

  lemma ChmodKeepsInv(initial: Option<Bytes>, s: State, i: nat)
    requires Inv(initial, s) && i < |s.saves| && s.saves[i].pc.Chmodding?
    ensures Inv(initial, SaveStep(true, s, i, Chmod(true)).value)
  {
    var t := SaveStep(true, s, i, Chmod(true)).value;
    LoadsKeep(initial, s, t);
    forall j | 0 <= j < |t.saves| ensures SaveInv(t, j) {
      assert SaveInv(s, j);
    }
  }

  lemma CloseKeepsInv(initial: Option<Bytes>, s: State, i: nat)
    requires Inv(initial, s) && i < |s.saves| && s.saves[i].pc.Closing?
    ensures Inv(initial, SaveStep(true, s, i, Close(true)).value)
  {
    var t := SaveStep(true, s, i, Close(true)).value;
    LoadsKeep(initial, s, t);
    forall j | 0 <= j < |t.saves| ensures SaveInv(t, j) {
      assert SaveInv(s, j);
    }
  }

  lemma CreateKeepsInv(initial: Option<Bytes>, s: State, i: nat, name: nat)
    requires Inv(initial, s) && i < |s.saves| && s.saves[i].pc.Creating? && MayCreate(true, s, name)
    ensures Inv(initial, SaveStep(true, s, i, Create(name, true)).value)
  {
    var t := SaveStep(true, s, i, Create(name, true)).value;
    LoadsKeep(initial, s, t);
    forall j | 0 <= j < |t.saves| ensures SaveInv(t, j) {
      assert SaveInv(s, j);
    }
  }

  lemma WriteKeepsInv(initial: Option<Bytes>, s: State, i: nat, n: nat)
    requires Inv(initial, s) && i < |s.saves| && s.saves[i].pc.Writing? && SaveStep(true, s, i, Write(n, true)).Some?
    ensures Inv(initial, SaveStep(true, s, i, Write(n, true)).value)
  {
    var t := SaveStep(true, s, i, Write(n, true)).value;
    LoadsKeep(initial, s, t);
    forall j | 0 <= j < |t.saves| ensures SaveInv(t, j) {
      assert SaveInv(s, j);
    }
  }

  lemma RenameKeepsInv(initial: Option<Bytes>, s: State, i: nat)
    requires Inv(initial, s) && i < |s.saves| && s.saves[i].pc.Renaming?
    ensures Inv(initial, SaveStep(true, s, i, Rename(true)).value)
  {
    assert SaveInv(s, i);
    var t := SaveStep(true, s, i, Rename(true)).value;
    assert t.renamed == s.renamed + [i];
    LoadsKeep(initial, s, t);
    forall j | 0 <= j < |t.saves| ensures SaveInv(t, j) {
      assert SaveInv(s, j);
    }
  }

  lemma CleanUpKeepsInv(initial: Option<Bytes>, s: State, i: nat)
    requires Inv(initial, s) && i < |s.saves| && s.saves[i].pc.CleaningUp?
    ensures Inv(initial, SaveStep(true, s, i, CleanUp).value)
  {
    assert SaveInv(s, i);
    var t := SaveStep(true, s, i, CleanUp).value;
    LoadsKeep(initial, s, t);
    forall j | 0 <= j < |t.saves| ensures SaveInv(t, j) {
      assert SaveInv(s, j);
    }
  }

  /** The steps that touch neither directory nor files: those before Create, the failed ones and a crash. */
  predicate OnlyMoves(a: Action) {
    a.MkDir? || a.Encode? || a.Crash? || ((a.Create? || a.Chmod? || a.Write? || a.Close? || a.Rename?) && !a.ok)
  }

  lemma MoveKeepsInv(initial: Option<Bytes>, s: State, i: nat, a: Action)
    requires Inv(initial, s) && i < |s.saves| && SaveStep(true, s, i, a).Some? && OnlyMoves(a)
    ensures Inv(initial, SaveStep(true, s, i, a).value)
  {
    var t := SaveStep(true, s, i, a).value;
    assert t == Go(s, i, t.saves[i].pc);
    GoKeepsInv(initial, s, i, t.saves[i].pc);
  }

  lemma SaveStepKeepsInv(initial: Option<Bytes>, s: State, i: nat, a: Action)
    requires Inv(initial, s) && i < |s.saves| && SaveStep(true, s, i, a).Some?
    ensures Inv(initial, SaveStep(true, s, i, a).value)
  {
    if OnlyMoves(a) {
      MoveKeepsInv(initial, s, i, a);
    } else if a.Create? {
      CreateKeepsInv(initial, s, i, a.name);
    } else if a.Write? {
      WriteKeepsInv(initial, s, i, a.n);
    } else if a.Rename? {
      RenameKeepsInv(initial, s, i);
    } else if a.Chmod? {
      ChmodKeepsInv(initial, s, i);
    } else if a.Close? {
      CloseKeepsInv(initial, s, i);
    } else {
      CleanUpKeepsInv(initial, s, i);
    }
  }

  lemma SettledContent(initial: Option<Bytes>, s: State, ino: Inode)
    requires Inv(initial, s) && Settled(initial, s, ino)
    ensures ino in s.data && s.data[ino] == ContentOf(initial, s, ino)
  {
    if ino > 0 {
      assert SaveInv(s, ino - 1);
      RenamedComplete(s.saves[ino - 1].pc);
    }
  }

  lemma TargetSettled(initial: Option<Bytes>, s: State)
    requires Inv(initial, s)
    ensures Target in s.dir ==> Settled(initial, s, s.dir[Target])
    ensures Target !in s.dir ==> initial.None? && s.renamed == []
  {}

  /** The Load that moves: it opens a settled file, and reads what that file holds. */
  lemma LoadAdvances(initial: Option<Bytes>, s: State, i: nat, a: Action)
    requires Inv(initial, s) && i < |s.loads| && LoadStep(s, i, a).Some?
    ensures LoadInv(initial, s, LoadStep(s, i, a).value.loads[i])
  {
    assert LoadInv(initial, s, s.loads[i]);
    if s.loads[i].Reading? {
      SettledContent(initial, s, s.loads[i].ino);
    } else {
      TargetSettled(initial, s);
    }
  }

  lemma LoadStepKeepsInv(initial: Option<Bytes>, s: State, i: nat, a: Action)
    requires Inv(initial, s) && i < |s.loads| && LoadStep(s, i, a).Some?
    ensures Inv(initial, LoadStep(s, i, a).value)
  {
    var t := LoadStep(s, i, a).value;
    LoadAdvances(initial, s, i, a);
    forall j | 0 <= j < |t.saves| ensures SaveInv(t, j) {
      assert SaveInv(s, j);
    }
    forall k | 0 <= k < |t.loads| ensures LoadInv(initial, t, t.loads[k]) {
      LoadKeeps(initial, s, t, t.loads[k]);
    }
  }

  lemma StepKeepsInv(initial: Option<Bytes>, s: State, i: nat, a: Action)
    requires Inv(initial, s) && Step(true, s, i, a).Some?
    ensures Inv(initial, Step(true, s, i, a).value)
  {
    if a.Open? || a.Read? {
      LoadStepKeepsInv(initial, s, i, a);
    } else {
      SaveStepKeepsInv(initial, s, i, a);
    }
  }

  lemma {:induction false} ExecKeepsInv(initial: Option<Bytes>, s: State, sched: Schedule)
    requires Inv(initial, s) && Exec(true, s, sched).Some?
    ensures Inv(initial, Exec(true, s, sched).value)
    decreases |sched|
  {
    if sched != [] {
      var (i, a) := sched[0];
      StepKeepsInv(initial, s, i, a);
      ExecKeepsInv(initial, Step(true, s, i, a).value, sched[1..]);
    }
  }

  lemma StepKeepsPayloads(notOwed: bool, s: State, i: nat, a: Action)
    requires Step(notOwed, s, i, a).Some?
    ensures var t := Step(notOwed, s, i, a).value;
            && |t.saves| == |s.saves| && (forall j :: 0 <= j < |s.saves| ==> t.saves[j].payload == s.saves[j].payload)
            && forall j :: j in s.renamed ==> j in t.renamed
  {}

  /** The Saves keep their number and payloads. */
  lemma {:induction false} ExecKeepsPayloads(notOwed: bool, s: State, sched: Schedule)
    requires Exec(notOwed, s, sched).Some?
    ensures var t := Exec(notOwed, s, sched).value;
            |t.saves| == |s.saves| && forall i :: 0 <= i < |s.saves| ==> t.saves[i].payload == s.saves[i].payload
    decreases |sched|
  {
    if sched != [] {
      StepKeepsPayloads(notOwed, s, sched[0].0, sched[0].1);
      ExecKeepsPayloads(notOwed, Step(notOwed, s, sched[0].0, sched[0].1).value, sched[1..]);
    }
  }

  /** The content the session file has when the Saves in `renamed` have replaced it, in this order. */
  function Expected(initial: Option<Bytes>, payloads: seq<Bytes>, renamed: seq<nat>): Option<Bytes>
    requires forall i :: i in renamed ==> i < |payloads|
  {
    if renamed == [] then initial
    else
      assert renamed[|renamed| - 1] in renamed;
      Some(payloads[renamed[|renamed| - 1]])
  }

  /** What a reader that opens the session file now will find. */
  function FileContent(s: State): Option<Bytes> {
    if Target in s.dir && s.dir[Target] in s.data then Some(s.data[s.dir[Target]]) else None
  }

  /** At every moment, whatever has crashed, the session file holds the complete bytes of the Save that was
      renamed last, or what it held at first. A Save that returned nil has replaced the file, one that
      returned an error has not, and neither leaves its temporary file behind. The bytes of a session are only
      ever in files with mode 0600, and what was renamed had been closed without an error. */
  lemma AtomicReplace(initial: Option<Bytes>, payloads: seq<Bytes>, loaders: nat, sched: Schedule)
    requires Exec(true, Init(initial, payloads, loaders), sched).Some?
    ensures var s := Exec(true, Init(initial, payloads, loaders), sched).value;
            && |s.saves| == |payloads|
            && (forall i :: i in s.renamed ==> i < |payloads|)
            && (Target in s.dir ==> s.dir[Target] in s.data)
            && FileContent(s) == Expected(initial, payloads, s.renamed)
            && (forall ino :: ino in s.data && 0 < ino <= |s.saves| && s.data[ino] != [] ==> ino in s.private)
            && (s.renamed != [] ==> Target in s.dir && s.dir[Target] in s.private && s.dir[Target] in s.closed)
            && (forall i :: 0 <= i < |s.saves| && s.saves[i].pc.Returned? ==>
                  (s.saves[i].pc.ok <==> i in s.renamed) && forall n :: Temp(n) in s.dir ==> s.dir[Temp(n)] != i + 1)
  {
    var s0 := Init(initial, payloads, loaders);
    InitInv(initial, payloads, loaders);
    ExecKeepsInv(initial, s0, sched);
    ExecKeepsPayloads(true, s0, sched);
    var s := Exec(true, s0, sched).value;
    TargetSettled(initial, s);
    if Target in s.dir {
      SettledContent(initial, s, s.dir[Target]);
    }
    forall i | 0 <= i < |s.saves| && s.saves[i].pc.Returned?
      ensures (s.saves[i].pc.ok <==> i in s.renamed) && forall n :: Temp(n) in s.dir ==> s.dir[Temp(n)] != i + 1
    {
      assert SaveInv(s, i);
    }
    forall ino | ino in s.data && 0 < ino <= |s.saves| && s.data[ino] != [] ensures ino in s.private {
      assert SaveInv(s, ino - 1);
    }
    if s.renamed != [] {
      var last := s.renamed[|s.renamed| - 1];
      assert SaveInv(s, last);
      RenamedComplete(s.saves[last].pc);
    }
  }

  /** What a Load that found `seen` when it opened the file has read of it. */
  predicate Seen(initial: Option<Bytes>, s: State, l: Load, seen: Option<Bytes>) {
    match l
    case Opening => false
    case Reading(ino, got) =>
      seen.Some? && Settled(initial, s, ino) && ContentOf(initial, s, ino) == seen.value && got <= seen.value
    case Loaded(content) => content == seen
  }

  lemma OpenSees(initial: Option<Bytes>, s: State, k: nat)
    requires Inv(initial, s) && k < |s.loads| && s.loads[k].Opening?
    ensures var t := LoadStep(s, k, Open).value; Seen(initial, t, t.loads[k], FileContent(s))
  {
    TargetSettled(initial, s);
    if Target in s.dir { SettledContent(initial, s, s.dir[Target]); }
  }

  lemma ReadKeepsSeen(initial: Option<Bytes>, s: State, k: nat, n: nat, seen: Option<Bytes>)
    requires Inv(initial, s) && k < |s.loads| && LoadStep(s, k, Read(n)).Some?
    requires Seen(initial, s, s.loads[k], seen)
    ensures var t := LoadStep(s, k, Read(n)).value; Seen(initial, t, t.loads[k], seen)
  {
    var got := s.loads[k].got;
    SettledContent(initial, s, s.loads[k].ino);
    assert got == seen.value[..|got|];
    if |got| == |seen.value| {
      assert got == seen.value;
    } else if |got| + n <= |seen.value| {
      assert got + seen.value[|got|..|got| + n] == seen.value[..|got| + n];
    }
  }

  lemma SeenStays(initial: Option<Bytes>, s: State, t: State, l: Load, seen: Option<Bytes>)
    requires Seen(initial, s, l, seen) && SamePayload(s, t) && forall i :: i in s.renamed ==> i in t.renamed
    ensures Seen(initial, t, l, seen)
  {}

  /** No step, of this Load or of anybody else, changes what it will return. */
  lemma StepKeepsSeen(initial: Option<Bytes>, s: State, i: nat, a: Action, k: nat, seen: Option<Bytes>)
    requires Inv(initial, s) && Step(true, s, i, a).Some?
    requires k < |s.loads| && Seen(initial, s, s.loads[k], seen)
    ensures var t := Step(true, s, i, a).value; k < |t.loads| && Seen(initial, t, t.loads[k], seen)
  {
    if a.Read? && i == k {
      ReadKeepsSeen(initial, s, k, a.n, seen);
    } else {
      StepKeepsPayloads(true, s, i, a);
      StepElsewhereKeeps(s, i, a, true, k);
      SeenStays(initial, s, Step(true, s, i, a).value, s.loads[k], seen);
    }
  }

  lemma {:induction false} ExecKeepsSeen(initial: Option<Bytes>, s: State, sched: Schedule, k: nat, seen: Option<Bytes>)
    requires Inv(initial, s) && Exec(true, s, sched).Some?
    requires k < |s.loads| && Seen(initial, s, s.loads[k], seen)
    ensures var t := Exec(true, s, sched).value; k < |t.loads| && Seen(initial, t, t.loads[k], seen)
    decreases |sched|
  {
    if sched != [] {
      var (i, a) := sched[0];
      StepKeepsSeen(initial, s, i, a, k, seen);
      StepKeepsInv(initial, s, i, a);
      ExecKeepsSeen(initial, Step(true, s, i, a).value, sched[1..], k, seen);
    }
  }

  /** The step at which the Load opened the file. */
  lemma {:induction false} OpenedAt(initial: Option<Bytes>, s: State, sched: Schedule, k: nat) returns (n: nat)
    requires Inv(initial, s) && Exec(true, s, sched).Some? && k < |s.loads| && s.loads[k].Opening?
    requires var t := Exec(true, s, sched).value; k < |t.loads| ==> !t.loads[k].Opening?
    ensures n < |sched| && sched[n] == (k, Open) && Exec(true, s, sched[..n]).Some?
    ensures var t := Exec(true, s, sched).value;
            k < |t.loads| && Seen(initial, t, t.loads[k], FileContent(Exec(true, s, sched[..n]).value))
    decreases |sched|
  {
    var (i, a) := sched[0];
    var t := Step(true, s, i, a).value;
    StepKeepsInv(initial, s, i, a);
    if a.Open? && i == k {
      n := 0;
      OpenSees(initial, s, k);
      ExecKeepsSeen(initial, t, sched[1..], k, FileContent(s));
    } else {
      StepElsewhereKeeps(s, i, a, true, k);
      var m := OpenedAt(initial, t, sched[1..], k);
      n := m + 1;
      assert sched[..n][1..] == sched[1..][..m];
    }
  }

  /** A Load that overlaps any number of Saves returns exactly what the session file held at the moment it
      opened it: the initial file, or the whole payload of the Save renamed last before that moment. */
  lemma LoadNeverTorn(initial: Option<Bytes>, payloads: seq<Bytes>, loaders: nat, sched: Schedule, k: nat)
    returns (n: nat)
    requires Exec(true, Init(initial, payloads, loaders), sched).Some?
    requires var s := Exec(true, Init(initial, payloads, loaders), sched).value;
             k < |s.loads| && s.loads[k].Loaded?
    ensures n < |sched| && sched[n] == (k, Open)
    ensures Exec(true, Init(initial, payloads, loaders), sched[..n]).Some?
    ensures var atOpen := Exec(true, Init(initial, payloads, loaders), sched[..n]).value;
            && (forall i :: i in atOpen.renamed ==> i < |payloads|)
            && Exec(true, Init(initial, payloads, loaders), sched).value.loads[k].content
               == Expected(initial, payloads, atOpen.renamed)
  {
    var s0 := Init(initial, payloads, loaders);
    InitInv(initial, payloads, loaders);
    ExecKeepsLoads(s0, sched);
    n := OpenedAt(initial, s0, sched, k);
    AtomicReplace(initial, payloads, loaders, sched[..n]);
  }

  lemma {:induction false} ExecKeepsLoads(s: State, sched: Schedule)
    requires Exec(true, s, sched).Some?
    ensures |Exec(true, s, sched).value.loads| == |s.loads|
    decreases |sched|
  {
    if sched != [] {
      ExecKeepsLoads(Step(true, s, sched[0].0, sched[0].1).value, sched[1..]);
    }
  }

  // ---------------------------------------------------------------- the code of Save and Load

  lemma {:induction false} ExecAppend(notOwed: bool, s: State, first: Schedule, rest: Schedule)
    requires Exec(notOwed, s, first).Some?
    ensures Exec(notOwed, s, first + rest) == Exec(notOwed, Exec(notOwed, s, first).value, rest)
    decreases |first|
  {
    if first == [] {
      assert first + rest == rest;
    } else {
      assert (first + rest)[1..] == first[1..] + rest;
      ExecAppend(notOwed, Step(notOwed, s, first[0].0, first[0].1).value, first[1..], rest);
    }
  }

  predicate IsLoad(a: Action) { a.Open? || a.Read? }

  /** A schedule that does not move Save (or Load) number i. */
  predicate Elsewhere(s: Schedule, load: bool, i: nat) {
    forall k :: 0 <= k < |s| ==> s[k].0 != i || IsLoad(s[k].1) != load
  }

  lemma StepElsewhereKeeps(s: State, j: nat, a: Action, load: bool, i: nat)
    requires Step(true, s, j, a).Some? && (j != i || IsLoad(a) != load)
    ensures var t := Step(true, s, j, a).value;
            && |t.saves| == |s.saves| && |t.loads| == |s.loads|
            && (!load && i < |s.saves| ==> t.saves[i] == s.saves[i])
            && (!load ==> (i + 1 in t.data <==> i + 1 in s.data))
            && (!load && i + 1 in s.data ==> t.data[i + 1] == s.data[i + 1])
            && (load && i < |s.loads| ==> t.loads[i] == s.loads[i])
  {}

  lemma {:induction false} ElsewhereKeeps(s: State, sched: Schedule, load: bool, i: nat)
    requires Exec(true, s, sched).Some? && Elsewhere(sched, load, i)
    ensures var t := Exec(true, s, sched).value;
            && |t.saves| == |s.saves| && |t.loads| == |s.loads|
            && (!load && i < |s.saves| ==> t.saves[i] == s.saves[i])
            && (!load ==> (i + 1 in t.data <==> i + 1 in s.data))
            && (!load && i + 1 in s.data ==> t.data[i + 1] == s.data[i + 1])
            && (load && i < |s.loads| ==> t.loads[i] == s.loads[i])
    decreases |sched|
  {
    if sched != [] {
      var t := Step(true, s, sched[0].0, sched[0].1).value;
      StepElsewhereKeeps(s, sched[0].0, sched[0].1, load, i);
      ElsewhereKeeps(t, sched[1..], load, i);
    }
  }

  ghost predicate Leads(start: State, s: State) {
    exists sched :: Exec(true, start, sched) == Some(s)
  }

  lemma LeadsOn(start: State, s: State, more: Schedule)
    requires Leads(start, s) && Exec(true, s, more).Some?
    ensures Leads(start, Exec(true, s, more).value)
  {
    var sched :| Exec(true, start, sched) == Some(s);
    ExecAppend(true, start, sched, more);
    assert Exec(true, start, sched + more) == Exec(true, s, more);
  }

  lemma LeadsTransitive(a: State, b: State, c: State)
    requires Leads(a, b) && Leads(b, c)
    ensures Leads(a, c)
  {
    var more :| Exec(true, b, more) == Some(c);
    LeadsOn(a, b, more);
  }

  lemma LeadsKeepsSeen(initial: Option<Bytes>, s: State, t: State, k: nat, seen: Option<Bytes>)
    requires Inv(initial, s) && Leads(s, t) && k < |s.loads| && Seen(initial, s, s.loads[k], seen)
    ensures k < |t.loads| && Seen(initial, t, t.loads[k], seen)
  {
    var sched :| Exec(true, s, sched) == Some(t);
    ExecKeepsSeen(initial, s, sched, k, seen);
  }

  lemma FromOneSave(initial: Option<Bytes>, s: State, content: Option<Bytes>, k: nat)
    requires Inv(initial, s) && k < |s.loads| && s.loads[k] == Loaded(content)
    ensures content.None? ==> initial.None?
    ensures content.Some? && content != initial ==>
              exists i :: i in s.renamed && i < |s.saves| && s.saves[i].payload == content.value
  {
    assert LoadInv(initial, s, s.loads[k]);
    if content.Some? {
      var ino: Inode :| Settled(initial, s, ino) && content.value == ContentOf(initial, s, ino);
      if ino > 0 { assert ino - 1 in s.renamed && s.saves[ino - 1].payload == content.value; }
    }
  }

  predicate SamePayload(s: State, t: State) {
    |t.saves| == |s.saves| && forall j :: 0 <= j < |s.saves| ==> t.saves[j].payload == s.saves[j].payload
  }

  lemma TheirStepsKeep(initial: Option<Bytes>, start: State, s: State, theirs: Schedule, load: bool, i: nat)
    requires Inv(initial, s) && Leads(start, s) && Exec(true, s, theirs).Some? && Elsewhere(theirs, load, i)
    ensures var t := Exec(true, s, theirs).value;
            && Inv(initial, t) && Leads(start, t) && SamePayload(s, t) && |t.loads| == |s.loads|
            && (!load && i < |s.saves| ==> t.saves[i] == s.saves[i])
            && (!load && i + 1 in s.data ==> i + 1 in t.data && t.data[i + 1] == s.data[i + 1])
            && (load && i < |s.loads| ==> t.loads[i] == s.loads[i])
  {
    LeadsOn(start, s, theirs);
    ExecKeepsInv(initial, s, theirs);
    ElsewhereKeeps(s, theirs, load, i);
    ExecKeepsPayloads(true, s, theirs);
  }

  /** The session directory, shared by all Saves and Loads. */
  class FileSessionStore {
    ghost const initial: Option<Bytes>
    var state: State

    constructor (initial: Option<Bytes>, payloads: seq<Bytes>, loaders: nat)
      ensures this.initial == initial && state == Init(initial, payloads, loaders) && Valid()
    {
      this.initial, state := initial, Init(initial, payloads, loaders);
      InitInv(initial, payloads, loaders);
    }

    ghost predicate Valid()
      reads this
    {
      Inv(initial, state)
    }

    /** The store got from `start` to its present state by steps of Saves and Loads. */
    ghost predicate Since(start: State)
      reads this
    {
      Leads(start, state)
    }

    /** Any number of system calls of the other Saves and Loads. */
    method Others(load: bool, i: nat, ghost start: State)
      requires Valid() && Since(start)
      modifies this
      ensures Valid() && Since(start)
      ensures SamePayload(old(state), state) && |state.loads| == old(|state.loads|)
      ensures !load && i < |state.saves| ==> state.saves[i] == old(state).saves[i]
      ensures !load && i + 1 in old(state).data ==>
                i + 1 in state.data && state.data[i + 1] == old(state).data[i + 1]
      ensures load && i < |state.loads| ==> state.loads[i] == old(state).loads[i]
    {
      var theirs: Schedule := *;
      if Elsewhere(theirs, load, i) && Exec(true, state, theirs).Some? {
        TheirStepsKeep(initial, start, state, theirs, load, i);
        state := Exec(true, state, theirs).value;
      }
    }

    /** One system call of Save or Load number i. */
    method Call(i: nat, a: Action, ghost start: State)
      requires Valid() && Since(start) && Step(true, state, i, a).Some?
      modifies this
      ensures Valid() && Since(start) && Some(state) == Step(true, old(state), i, a)
      ensures SamePayload(old(state), state)
    {
      assert [(i, a)][1..] == [];
      LeadsOn(start, state, [(i, a)]);
      ExecKeepsPayloads(true, state, [(i, a)]);
      StepKeepsInv(initial, state, i, a);
      state := Step(true, state, i, a).value;
    }

    /** A system call of Save that may come at any time: whether it is possible does not depend on what
        the others did before it. */
    method Next(i: nat, a: Action, ghost start: State)
      requires Valid() && Since(start) && i < |state.saves|
      requires Ready(state.saves[i].pc, a)
      modifies this
      ensures Valid() && Since(start) && SamePayload(old(state), state)
      ensures state.saves[i].pc == After(old(state).saves[i].pc, a)
    {
      Others(false, i, start);
      assert SaveInv(state, i);
      Call(i, a, start);
    }

    /** session.go:68-99, interleaved with everything else: it follows the machine to its return. */
    method Save(i: nat) returns (ok: bool)
      requires Valid() && i < |state.saves| && state.saves[i].pc == MakingDir
      modifies this
      ensures Valid() && Since(old(state))
      ensures i < |state.saves| && state.saves[i].pc == Returned(ok)
    {
      ghost var start := state;
      assert Exec(true, start, []) == Some(state);
      var done: bool := *;
      Next(i, MkDir(done), start);
      if !done { return false; }
      done := *;
      Next(i, Encode(done), start);
      if !done { return false; }
      done := CreateTemp(i, start);
      if !done { return false; }
      ok := FillAndRename(i, start);
      Next(i, CleanUp, start);
    }

    /** os.CreateTemp gives up when it finds no name. */
    method CreateTemp(i: nat, ghost start: State) returns (ok: bool)
      requires Valid() && Since(start) && i < |state.saves| && state.saves[i].pc == Creating
      modifies this
      ensures Valid() && Since(start)
      ensures i < |state.saves| && state.saves[i].pc == if ok then Chmodding else Returned(false)
    {
      Others(false, i, start);
      var name: nat := *;
      ok := MayCreate(true, state, name);
      Call(i, Create(name, ok), start);
    }

    /** The part of Save after the deferred Remove. */
    method FillAndRename(i: nat, ghost start: State) returns (ok: bool)
      requires Valid() && Since(start) && i < |state.saves| && state.saves[i].pc == Chmodding
      modifies this
      ensures Valid() && Since(start)
      ensures i < |state.saves| && state.saves[i].pc == CleaningUp(ok)
    {
      ok := *;
      Next(i, Chmod(ok), start);
      if !ok { return; }
      ok := WriteAll(i, start);
      if !ok { return; }
      ok := *;
      Next(i, Close(ok), start);
      if !ok { return; }
      ok := *;
      Next(i, Rename(ok), start);
    }

    /** tmpf.Write, which may reach the file in pieces. */
    method WriteAll(i: nat, ghost start: State) returns (ok: bool)
      requires Valid() && Since(start) && i < |state.saves| && state.saves[i].pc == Writing
      modifies this
      ensures Valid() && Since(start)
      ensures i < |state.saves| && state.saves[i].pc == if ok then Closing else CleaningUp(false)
    {
      assert SaveInv(state, i);
      while true
        invariant Valid() && Since(start)
        invariant i < |state.saves| && state.saves[i] == old(state).saves[i]
        invariant i + 1 in state.data && state.data[i + 1] <= state.saves[i].payload
        decreases |state.saves[i].payload| - |state.data[i + 1]|
      {
        Others(false, i, start);
        var left := |state.saves[i].payload| - |state.data[i + 1]|;
        var n: nat := *;
        n := if 0 < n <= left then n else left;
        ok := *;
        Call(i, Write(n, ok), start);
        if !ok || state.saves[i].pc == Closing { return; }
      }
    }

    /** session.go:52-65 up to the decoding of the bytes. The content is what the session file held in one
        state between the call and the return. */
    method Load(k: nat) returns (content: Option<Bytes>, ghost atOpen: State)
      requires Valid() && k < |state.loads| && state.loads[k] == Opening
      modifies this
      ensures Valid() && Leads(old(state), atOpen) && Leads(atOpen, state)
      ensures k < |state.loads| && state.loads[k] == Loaded(content) && content == FileContent(atOpen)
      ensures content.None? ==> initial.None?
      ensures content.Some? && content != initial ==>
                exists i :: i in state.renamed && i < |state.saves| && state.saves[i].payload == content.value
    {
      ghost var start := state;
      assert Exec(true, start, []) == Some(state);
      Others(true, k, start);
      atOpen := state;
      assert Exec(true, atOpen, []) == Some(atOpen);
      OpenSees(initial, atOpen, k);
      Call(k, Open, atOpen);
      ghost var after := state;
      assert Exec(true, after, []) == Some(after);
      while state.loads[k].Reading?
        invariant Valid() && Since(after)
        invariant k < |state.loads| && !state.loads[k].Opening?
        decreases if state.loads[k].Reading? then 1 + Unread(initial, state, state.loads[k]) else 0
      {
        ReadSome(k, after);
      }
      content := state.loads[k].content;
      LeadsKeepsSeen(initial, after, state, k, FileContent(atOpen));
      LeadsTransitive(atOpen, after, state);
      FromOneSave(initial, state, content, k);
    }

    method ReadSome(k: nat, ghost start: State)
      requires Valid() && Since(start) && k < |state.loads| && state.loads[k].Reading?
      modifies this
      ensures Valid() && Since(start) && k < |state.loads| && !state.loads[k].Opening?
      ensures 0 <= Unread(initial, old(state), old(state).loads[k])
      ensures state.loads[k].Reading? ==>
                Unread(initial, state, state.loads[k]) < Unread(initial, old(state), old(state).loads[k])
    {
      assert LoadInv(initial, state, state.loads[k]);
      Others(true, k, start);
      assert LoadInv(initial, state, state.loads[k]);
      SettledContent(initial, state, state.loads[k].ino);
      var left := |state.data[state.loads[k].ino]| - |state.loads[k].got|;
      var n: nat := *;
      n := if 0 < n <= left then n else left;
      Call(k, Read(n), start);
      assert LoadInv(initial, state, state.loads[k]);
    }
  }

  predicate Ready(pc: SavePc, a: Action) {
    match (pc, a)
    case (MakingDir, MkDir(_)) => true
    case (Encoding, Encode(_)) => true
    case (Chmodding, Chmod(_)) => true
    case (Closing, Close(_)) => true
    case (Renaming, Rename(_)) => true
    case (CleaningUp(_), CleanUp) => true
    case _ => false
  }

  function After(pc: SavePc, a: Action): SavePc {
    match (pc, a)
    case (MakingDir, MkDir(ok)) => if ok then Encoding else Returned(false)
    case (Encoding, Encode(ok)) => if ok then Creating else Returned(false)
    case (Chmodding, Chmod(ok)) => if ok then Writing else CleaningUp(false)
    case (Closing, Close(ok)) => if ok then Renaming else CleaningUp(false)
    case (Renaming, Rename(ok)) => CleaningUp(ok)
    case (CleaningUp(ok), CleanUp) => Returned(ok)
    case _ => pc
  }

  /** How much of its file a Load has not read yet. */
  ghost function Unread(initial: Option<Bytes>, s: State, l: Load): int {
    if l.Reading? && Settled(initial, s, l.ino) then |ContentOf(initial, s, l.ino)| - |l.got| else 0
  }

  // ---------------------------------------------------------------- why names must not be reused

  /** Save number i has created its file under `name` and written n bytes. */
  function Filled(s: State, i: nat, name: nat, n: nat): State
    requires i < |s.saves| && n <= |s.saves[i].payload|
  {
    var payload := s.saves[i].payload;
    s.(dir := s.dir[Temp(name) := i + 1], data := s.data[i + 1 := payload[..n]], private := s.private + {i + 1},
       saves := s.saves[i := Save(payload, if n == |payload| then Closing else Writing, name)])
  }

  lemma Extend(s0: State, sched: Schedule, s: State, i: nat, a: Action, t: State) returns (longer: Schedule)
    requires Exec(false, s0, sched) == Some(s) && Step(false, s, i, a) == Some(t)
    ensures Exec(false, s0, longer) == Some(t)
  {
    longer := sched + [(i, a)];
    ExecAppend(false, s0, sched, [(i, a)]);
    assert [(i, a)][1..] == [];
  }

  lemma FillsTo(s0: State, sched0: Schedule, s: State, i: nat, name: nat, n: nat) returns (sched: Schedule)
    requires Exec(false, s0, sched0) == Some(s)
    requires i < |s.saves| && s.saves[i].pc == MakingDir && Temp(name) !in s.dir && n <= |s.saves[i].payload|
    ensures Exec(false, s0, sched) == Some(Filled(s, i, name, n))
  {
    var payload := s.saves[i].payload;
    var s1, s2 := Go(s, i, Encoding), Go(s, i, Creating);
    var created := s.(dir := s.dir[Temp(name) := i + 1], data := s.data[i + 1 := []]);
    var s3 := created.(saves := s.saves[i := Save(payload, Chmodding, name)]);
    assert Go(s1, i, Creating).saves == s2.saves;
    assert s2.saves[i := Save(payload, Chmodding, name)] == s3.saves;
    sched := Extend(s0, sched0, s, i, MkDir(true), s1);
    sched := Extend(s0, sched, s1, i, Encode(true), s2);
    sched := Extend(s0, sched, s2, i, Create(name, true), s3);
    sched := WritesTo(s0, sched, s, s3, i, name, n);
  }

  lemma WritesTo(s0: State, sched0: Schedule, s: State, s3: State, i: nat, name: nat, n: nat) returns (sched: Schedule)
    requires Exec(false, s0, sched0) == Some(s3) && i < |s.saves| && n <= |s.saves[i].payload|
    requires s3 == s.(dir := s.dir[Temp(name) := i + 1], data := s.data[i + 1 := []],
                      saves := s.saves[i := Save(s.saves[i].payload, Chmodding, name)])
    ensures Exec(false, s0, sched) == Some(Filled(s, i, name, n))
  {
    var s4 := Go(s3.(private := s3.private + {i + 1}), i, Writing);
    sched := Extend(s0, sched0, s3, i, Chmod(true), s4);
    WriteFills(s, s4, i, name, n);
    sched := Extend(s0, sched, s4, i, Write(n, true), Filled(s, i, name, n));
  }

  lemma WriteFills(s: State, s4: State, i: nat, name: nat, n: nat)
    requires i < |s.saves| && n <= |s.saves[i].payload|
    requires s4 == s.(dir := s.dir[Temp(name) := i + 1], data := s.data[i + 1 := []], private := s.private + {i + 1},
                      saves := s.saves[i := Save(s.saves[i].payload, Writing, name)])
    ensures Step(false, s4, i, Write(n, true)) == Some(Filled(s, i, name, n))
  {
    var payload := s.saves[i].payload;
    assert s4.data[i + 1 := payload[..n]] == Filled(s, i, name, n).data;
    assert Go(s4, i, Closing).saves == s.saves[i := Save(payload, Closing, name)];
  }

  const THREE: seq<Bytes> := [[1], [2], [3, 4]]

  /** If a temporary name may come back once it is free again, the deferred Remove of one Save can hit the
      file of the next, and that one then renames the unfinished file of a third: the session file holds
      [3], which nobody saved. */
  lemma ReusedNameTears() returns (sched: Schedule)
    ensures Torn(sched)
  {
    var s0 := Init(None, THREE, 0);
    sched := FillsTo(s0, [], s0, 0, 7, 1);
    var a := Filled(s0, 0, 7, 1);
    assert a.dir == map[Temp(7) := 1];
    sched := Extend(s0, sched, a, 0, Close(true), Go(a.(closed := a.closed + {1}), 0, Renaming));
    sched := FirstRenamed(s0, sched, Go(a.(closed := a.closed + {1}), 0, Renaming));
  }

  ghost predicate Torn(sched: Schedule) {
    var r := Exec(false, Init(None, THREE, 0), sched);
    && r.Some?
    && Target in r.value.dir && r.value.dir[Target] in r.value.data && r.value.data[r.value.dir[Target]] == [3]
    && forall i :: 0 <= i < |r.value.saves| ==> r.value.saves[i].payload != [3]
  }

  lemma FirstRenamed(s0: State, sched0: Schedule, s: State) returns (sched: Schedule)
    requires s0 == Init(None, THREE, 0) && Exec(false, s0, sched0) == Some(s)
    requires s.dir == map[Temp(7) := 1]
    requires s.saves == [Save([1], Renaming, 7), Save([2], MakingDir, 0), Save([3, 4], MakingDir, 0)]
    ensures Torn(sched)
  {
    assert map[Temp(7) := 1][Target := 1] - {Temp(7)} == map[Target := 1];
    var t := Go(s.(dir := map[Target := 1], renamed := s.renamed + [0]), 0, CleaningUp(true));
    sched := Extend(s0, sched0, s, 0, Rename(true), t);
    sched := SecondFills(s0, sched, t);
  }

  lemma SecondFills(s0: State, sched0: Schedule, t: State) returns (sched: Schedule)
    requires s0 == Init(None, THREE, 0) && Exec(false, s0, sched0) == Some(t)
    requires t.dir == map[Target := 1]
    requires t.saves == [Save([1], CleaningUp(true), 7), Save([2], MakingDir, 0), Save([3, 4], MakingDir, 0)]
    ensures Torn(sched)
  {
    sched := FillsTo(s0, sched0, t, 1, 7, 1);
    var b := Filled(t, 1, 7, 1);
    sched := Extend(s0, sched, b, 1, Close(true), Go(b.(closed := b.closed + {2}), 1, Renaming));
    sched := FirstRemoves(s0, sched, Go(b.(closed := b.closed + {2}), 1, Renaming));
  }

  lemma FirstRemoves(s0: State, sched0: Schedule, s: State) returns (sched: Schedule)
    requires s0 == Init(None, THREE, 0) && Exec(false, s0, sched0) == Some(s)
    requires s.dir == map[Target := 1, Temp(7) := 2]
    requires s.saves == [Save([1], CleaningUp(true), 7), Save([2], Renaming, 7), Save([3, 4], MakingDir, 0)]
    ensures Torn(sched)
  {
    assert s.dir - {Temp(7)} == map[Target := 1];
    var t := Go(s.(dir := map[Target := 1]), 0, Returned(true));
    sched := Extend(s0, sched0, s, 0, CleanUp, t);
    sched := FillsTo(s0, sched, t, 2, 7, 1);
    sched := SecondRenames(s0, sched, Filled(t, 2, 7, 1));
  }

  lemma SecondRenames(s0: State, sched0: Schedule, s: State) returns (sched: Schedule)
    requires s0 == Init(None, THREE, 0) && Exec(false, s0, sched0) == Some(s)
    requires s.dir == map[Target := 1, Temp(7) := 3] && 3 in s.data && s.data[3] == [3]
    requires s.saves == [Save([1], Returned(true), 7), Save([2], Renaming, 7), Save([3, 4], Writing, 7)]
    ensures Torn(sched)
  {
    assert s.dir[Target := 3] - {Temp(7)} == map[Target := 3];
    var t := Go(s.(dir := map[Target := 3], renamed := s.renamed + [1]), 1, CleaningUp(true));
    sched := Extend(s0, sched0, s, 1, Rename(true), t);
    assert forall i :: 0 <= i < |t.saves| ==> t.saves[i].payload == s.saves[i].payload;
  }
}
