/** The machine list of the dashboard: building one manager per configured
    machine, the shortcut letter of each list entry, and which machine is
    selected. */
module Grid {
  import opened Wrappers
  import opened Machine

  /** shortcuts: the list keys, 'a' to 'z'. */
  const Shortcuts: seq<char> := "abcdefghijklmnopqrstuvwxyz"

  /** The machine at list position i gets the (i+1)-th lower-case letter. */
  lemma ShortcutIsLetter(i: nat)
    requires i < |Shortcuts|
    ensures Shortcuts[i] == ('a' as int + i) as char
  {
    assert Shortcuts == seq(26, j requires 0 <= j < 26 => ('a' as int + j) as char);
  }

  /** No two list positions share a key. */
  lemma ShortcutsDistinct(i: nat, j: nat)
    requires i < j < |Shortcuts|
    ensures Shortcuts[i] != Shortcuts[j]
  {
    ShortcutIsLetter(i);
    ShortcutIsLetter(j);
  }

  /** Why the grid was not built. A panic is a run-time crash of the program,
      shown here as a value. */
  datatype PanicReason =
    | NilSpecDereference
    | IndexOutOfRange(index: int, length: int)

  datatype GridError =
    | BuildFailed(machine: Option<string>, cause: ManagerError)
    | Panic(reason: PanicReason)

  /** The error the builder reports for a failed NewManager, as written: it
      names the machine through spec.Name, which crashes on a nil spec. */
  function BuildErrorAsWritten(spec: Option<Spec>, cause: ManagerError): (e: GridError)
    ensures e.Panic? <==> spec.None?
    ensures spec.Some? ==> e == BuildFailed(Some(spec.value.name), cause)
  {
    match spec
    case None => Panic(NilSpecDereference)
    case Some(s) => BuildFailed(Some(s.name), cause)
  }

  /** A nil entry in the machine list crashes the builder instead of being
      reported as NewManager's "spec is required". */
  lemma NilSpecCrashesBuilder()
    ensures BuildErrorAsWritten(None, ConstructionError(true, None, {}).value).Panic?
  {
  }

  /** The error the builder reports for a failed NewManager: the cause,
      with the machine's name when there is a spec to take it from. */
  function BuildError(spec: Option<Spec>, cause: ManagerError): (e: GridError)
    ensures e.BuildFailed? && e.cause == cause
    ensures spec.Some? ==> e == BuildErrorAsWritten(spec, cause)
  {
    match spec
    case None => BuildFailed(None, cause)
    case Some(s) => BuildFailed(Some(s.name), cause)
  }

  /** The position of the first spec NewManager refuses. */
  function FirstFailure(hasClient: bool, specs: seq<Option<Spec>>, resolvable: set<string>): (i: nat)
    ensures i <= |specs|
    ensures forall j | 0 <= j < i :: ConstructionError(hasClient, specs[j], resolvable).None?
    ensures i < |specs| ==> ConstructionError(hasClient, specs[i], resolvable).Some?
    decreases |specs|
  {
    if specs == [] || ConstructionError(hasClient, specs[0], resolvable).Some? then 0
    else
      assert forall j | 1 <= j < |specs| :: specs[j] == specs[1..][j - 1];
      1 + FirstFailure(hasClient, specs[1..], resolvable)
  }

  /** An entry of the machine list: its texts, its key, and the closure that
      selects list position `index`, machine `machine`. */
  datatype ListItem = ListItem(mainText: string, secondaryText: string, shortcut: char, index: nat, machine: Manager)

  /** The list widget, reduced to its entries. */
  class MachineList {
    var items: seq<ListItem>

    constructor ()
      ensures items == []
    {
      items := [];
    }

    method AddItem(item: ListItem)
      modifies this
      ensures items == old(items) + [item]
    {
      items := items + [item];
    }
  }

  /** machineStatus: the status pane and the machine it shows. */
  class MachineStatus {
    var machine: Manager

    constructor (m: Manager)
      ensures machine == m
    {
      machine := m;
    }

    method SetMachine(m: Manager)
      modifies this
      ensures machine == m
    {
      machine := m;
    }
  }

  /** machineGrid: the managers in list order and the selected one. */
  class MachineGrid {
    var machines: seq<Manager>
    var selectedMachine: Manager

    constructor (machines: seq<Manager>, selected: Manager)
      ensures this.machines == machines && selectedMachine == selected
    {
      this.machines := machines;
      selectedMachine := selected;
    }

    /** selectMachine: select list position `index`; nothing else changes. */
    method SelectMachine(index: int)
      requires 0 <= index < |machines|
      modifies this`selectedMachine
      ensures selectedMachine == machines[index]
      ensures machines == old(machines)
    {
      selectedMachine := machines[index];
    }
  }

  /** The callback of a list entry: select its position in the grid and show
      its machine in the status pane. */
  method OnItemSelected(g: MachineGrid, pane: MachineStatus, item: ListItem)
    requires item.index < |g.machines|
    modifies g`selectedMachine, pane
    ensures g.selectedMachine == old(g.machines)[item.index] && g.machines == old(g.machines)
    ensures pane.machine == item.machine
  {
    g.SelectMachine(item.index);
    pane.SetMachine(item.machine);
  }

  /** The list entry the builder adds for position i. */
  function ItemFor(i: nat, m: Manager): (item: ListItem)
    requires i < |Shortcuts|
    ensures item.mainText == m.spec.name && item.secondaryText == m.spec.fqdn
    ensures item.shortcut == ('a' as int + i) as char
    ensures item.index == i && item.machine == m
  {
    ShortcutIsLetter(i);
    ListItem(m.spec.name, m.spec.fqdn, Shortcuts[i], i, m)
  }

  /** One round of the manager loop: NewManager for one spec, which touches
      no manager built in an earlier round. */
  method BuildOne(c: Client?, spec: Option<Spec>, resolvable: set<string>, ghost built: seq<Manager>)
    returns (m: Manager?, err: Option<ManagerError>)
    requires forall j | 0 <= j < |built| :: built[j].Running()
    modifies c
    ensures err == ConstructionError(c != null, spec, resolvable)
    ensures m != null <==> err.None?
    ensures m != null ==> fresh(m) && m.spec == spec.value && m.client == c && m.Running()
    ensures err.Some? && err.value.AddPingerFailed? ==> c != null && c.closeCalls == old(c.closeCalls) + 1
    ensures (err.None? || !err.value.AddPingerFailed?) ==> c != null ==> c.closeCalls == old(c.closeCalls)
    ensures forall j | 0 <= j < |built| :: built[j].Running()
  {
    ghost var attempt;
    m, err, attempt := NewManager(c, spec, resolvable);
  }

  /** The manager loop of machineStatusGrid: build a manager per spec in
      order and stop at the first error, leaving the managers already built
      running. On success `machines` holds one manager per spec; on error it
      holds those built before the failing spec. */
  method BuildManagers(c: Client?, specs: seq<Option<Spec>>, resolvable: set<string>)
    returns (machines: seq<Manager>, err: Option<GridError>)
    modifies c
    ensures var f := FirstFailure(c != null, specs, resolvable);
      && (err.None? <==> f == |specs|)
      && |machines| == f
      && forall j | 0 <= j < f ::
           && fresh(machines[j]) && machines[j].spec == specs[j].value
           && machines[j].client == c && machines[j].Running()
    ensures var f := FirstFailure(c != null, specs, resolvable);
      f < |specs| ==>
        && err == Some(BuildError(specs[f], ConstructionError(c != null, specs[f], resolvable).value))
        && (ConstructionError(c != null, specs[f], resolvable).value.AddPingerFailed? ==>
              c != null && c.closeCalls == old(c.closeCalls) + 1)
        && (!ConstructionError(c != null, specs[f], resolvable).value.AddPingerFailed? ==>
              c != null ==> c.closeCalls == old(c.closeCalls))
    ensures err.None? ==> c != null ==> c.closeCalls == old(c.closeCalls)
  {
    machines := [];
    ghost var f := FirstFailure(c != null, specs, resolvable);
    var i := 0;
    while i < |specs|
      invariant 0 <= i <= f
      invariant |machines| == i
      invariant forall j | 0 <= j < i ::
                  && fresh(machines[j]) && machines[j].spec == specs[j].value
                  && machines[j].client == c && machines[j].Running()
      invariant c != null ==> c.closeCalls == old(c.closeCalls)
    {
      var m, e := BuildOne(c, specs[i], resolvable, machines);
      if e.Some? {
        return machines, Some(BuildError(specs[i], e.value));
      }
      assert i < f by {
        assert ConstructionError(c != null, specs[i], resolvable).None?;
      }
      ghost var built := machines;
      machines := machines + [m];
      forall j | 0 <= j < i + 1
        ensures && fresh(machines[j]) && machines[j].spec == specs[j].value
                && machines[j].client == c && machines[j].Running()
      {
        if j < i {
          assert machines[j] == built[j];
        }
      }
      i := i + 1;
    }
    err := None;
  }

  /** The list loop of machineStatusGrid: add each machine under the
      shortcut of its position; a 27th machine has no shortcut and crashes. */
  method AddMachineItems(list: MachineList, machines: seq<Manager>) returns (err: Option<GridError>)
    modifies list
    ensures |machines| > |Shortcuts| ==> err == Some(Panic(IndexOutOfRange(|Shortcuts|, |Shortcuts|)))
    ensures |machines| <= |Shortcuts| ==>
      && err.None?
      && |list.items| == |old(list.items)| + |machines|
      && list.items[..|old(list.items)|] == old(list.items)
      && forall j | 0 <= j < |machines| :: list.items[|old(list.items)| + j] == ItemFor(j, machines[j])
  {
    var k := 0;
    while k < |machines|
      invariant 0 <= k <= |machines| && k <= |Shortcuts|
      invariant |list.items| == |old(list.items)| + k
      invariant list.items[..|old(list.items)|] == old(list.items)
      invariant forall j | 0 <= j < k :: list.items[|old(list.items)| + j] == ItemFor(j, machines[j])
    {
      if k >= |Shortcuts| {
        return Some(Panic(IndexOutOfRange(k, |Shortcuts|)));
      }
      var m := machines[k];
      list.AddItem(ListItem(m.spec.name, m.spec.fqdn, Shortcuts[k], k, m));
      k := k + 1;
    }
    err := None;
  }

  /** machineStatusGrid: build the managers, select the first machine, start
      the status pane on it and list every machine under its shortcut. */
  method MachineStatusGrid(c: Client?, specs: seq<Option<Spec>>, resolvable: set<string>)
    returns (g: MachineGrid?, list: MachineList?, pane: MachineStatus?, err: Option<GridError>)
    modifies c
    ensures g != null <==> err.None?
    ensures var f := FirstFailure(c != null, specs, resolvable);
      f < |specs| ==>
        && err == Some(BuildError(specs[f], ConstructionError(c != null, specs[f], resolvable).value))
        && (ConstructionError(c != null, specs[f], resolvable).value.AddPingerFailed? ==>
              c != null && c.closeCalls == old(c.closeCalls) + 1)
        && (!ConstructionError(c != null, specs[f], resolvable).value.AddPingerFailed? ==>
              c != null ==> c.closeCalls == old(c.closeCalls))
    ensures FirstFailure(c != null, specs, resolvable) == |specs| ==>
      && (c != null ==> c.closeCalls == old(c.closeCalls))
      && (|specs| == 0 ==> err == Some(Panic(IndexOutOfRange(0, 0))))
      && (|specs| > |Shortcuts| ==> err == Some(Panic(IndexOutOfRange(|Shortcuts|, |Shortcuts|))))
      && (0 < |specs| <= |Shortcuts| ==> err.None?)
    ensures g != null ==>
      && list != null && pane != null
      && |g.machines| == |specs| <= |Shortcuts|
      && g.selectedMachine == g.machines[0] && pane.machine == g.machines[0]
      && (forall j | 0 <= j < |specs| ::
            fresh(g.machines[j]) && g.machines[j].spec == specs[j].value && g.machines[j].Running())
      && |list.items| == |specs|
      && forall j | 0 <= j < |specs| :: list.items[j] == ItemFor(j, g.machines[j])
  {
    var machines;
    machines, err := BuildManagers(c, specs, resolvable);
    if err.Some? {
      return null, null, null, err;
    }
    if |machines| == 0 {
      return null, null, null, Some(Panic(IndexOutOfRange(0, 0)));
    }
    g := new MachineGrid(machines, machines[0]);
    // newMachineStatus: the pane starts on the selected machine.
    pane := new MachineStatus(g.selectedMachine);
    list := new MachineList();
    err := AddMachineItems(list, machines);
    if err.Some? {
      return null, null, null, err;
    }
    assert g.machines == machines;
    assert forall j | 0 <= j < |machines| :: list.items[0 + j] == list.items[j];
  }
}
