/**
 * The registry of the functions the language model may call: a dict from a
 * function's `__name__` to the function. `register_function` adds an entry and
 * refuses a name already present; nothing removes or replaces an entry.
 */
module Registry {
  import opened Wrappers
  import opened Dicts

  /** A callable function, known by its `__name__` and the names of its parameters. */
  datatype Tool = Tool(name: string, parameters: seq<string>)

  type Table = Dict<string, Tool>

  function AlreadyRegistered(name: string): string {
    "Function '" + name + "' is already registered."
  }

  function NotRegistered(name: string): string {
    "Function '" + name + "' is not registered."
  }

  /** Each function is filed under its own name. */
  predicate Filed(table: Table) {
    Valid(table) && forall k :: k in table.entries ==> table.entries[k].name == k
  }

  /** `register_function(f)` on the registry `table`: the registry after the call, and what the call gives back. */
  function Registered(table: Table, f: Tool): (Table, Result<Tool>) {
    if f.name in table.entries then (table, Raise(ValueError(AlreadyRegistered(f.name))))
    else (Put(table, f.name, f), Ok(f))
  }

  /** Registering keeps each function filed under its own name. */
  lemma RegisteredFiled(table: Table, f: Tool)
    requires Filed(table)
    ensures Filed(Registered(table, f).0)
  {
  }

  /**
   * The registry is append-only: an entry, once made, keeps its function and its
   * place, and a refused registration changes nothing.
   */
  lemma RegisteredAppendOnly(table: Table, f: Tool)
    requires Filed(table)
    ensures var (after, r) := Registered(table, f);
      && table.keys <= after.keys
      && (forall k :: k in table.entries ==> k in after.entries && after.entries[k] == table.entries[k])
      && (r.Raise? ==> after == table && r.exception == ValueError(AlreadyRegistered(f.name)))
  {
  }

  /** A registration that succeeds gives back the function itself, files it under its name, and lists it last. */
  lemma RegisteredListedLast(table: Table, f: Tool)
    requires Filed(table) && f.name !in table.entries
    ensures var (after, r) := Registered(table, f);
      && r == Ok(f)
      && f.name in after.entries && after.entries[f.name] == f
      && Values(after) == Values(table) + [f]
  {
    ValuesPutNew(table, f.name, f);
  }

  /** `register_function` applied to each function of `fs` in turn, stopping at the first that raises. */
  function RegisterAll(table: Table, fs: seq<Tool>): (Table, Option<Exception>)
    decreases |fs|
  {
    if fs == [] then (table, None)
    else
      var (after, r) := Registered(table, fs[0]);
      if r.Raise? then (after, Some(r.exception)) else RegisterAll(after, fs[1..])
  }

  /** Names that are new and distinct stay so for the rest of `fs` once its first function is registered. */
  lemma FreshAfterFirst(table: Table, fs: seq<Tool>)
    requires Filed(table) && fs != []
    requires forall i :: 0 <= i < |fs| ==> fs[i].name !in table.entries
    requires forall i, j :: 0 <= i < j < |fs| ==> fs[i].name != fs[j].name
    ensures var after := Registered(table, fs[0]).0;
      && Filed(after)
      && (forall i :: 0 <= i < |fs[1..]| ==> fs[1..][i].name !in after.entries)
      && (forall i, j :: 0 <= i < j < |fs[1..]| ==> fs[1..][i].name != fs[1..][j].name)
  {
    RegisteredFiled(table, fs[0]);
    assert forall i :: 0 <= i < |fs[1..]| ==> fs[1..][i] == fs[i + 1];
  }

  /** Functions with new, distinct names are all registered and listed after the others, in order. */
  lemma {:induction false} RegisterAllFresh(table: Table, fs: seq<Tool>)
    requires Filed(table)
    requires forall i :: 0 <= i < |fs| ==> fs[i].name !in table.entries
    requires forall i, j :: 0 <= i < j < |fs| ==> fs[i].name != fs[j].name
    ensures var (after, failure) := RegisterAll(table, fs);
      && failure == None && Filed(after)
      && Values(after) == Values(table) + fs
    decreases |fs|
  {
    if fs != [] {
      var after := Registered(table, fs[0]).0;
      RegisteredListedLast(table, fs[0]);
      FreshAfterFirst(table, fs);
      RegisterAllFresh(after, fs[1..]);
      ConcatAssoc(Values(table), [fs[0]], fs[1..]);
      assert [fs[0]] + fs[1..] == fs;
    }
  }

  /** The three functions gemini_functions.py registers when it is imported. */
  function ModuleTools(): seq<Tool> {
    [Tool("get_information", ["description"]), Tool("show_person", ["name"]), Tool("play_audio", ["audio"])]
  }

  /** The three bound methods of a `Retriever` that `DementiaAgent` registers. */
  function AgentTools(): seq<Tool> {
    [ Tool("retrieve_information", ["query", "category"])
    , Tool("add_event", ["node_names", "predicate", "event", "description", "time", "day", "location"])
    , Tool("retrieve_nodes", [])
    ]
  }

  /** The functions of a well-formed registry are listed under their names, in the order of the keys. */
  lemma FiledNames(table: Table)
    requires Filed(table)
    ensures forall i :: 0 <= i < |table.keys| ==> Values(table)[i].name == table.keys[i]
  {
  }

  /** The names of `fs`, in order. */
  function Names(fs: seq<Tool>): (names: seq<string>)
    ensures |names| == |fs| && forall i :: 0 <= i < |fs| ==> names[i] == fs[i].name
  {
    seq(|fs|, i requires 0 <= i < |fs| => fs[i].name)
  }

  lemma ModuleToolNames()
    ensures Names(ModuleTools()) == ["get_information", "show_person", "play_audio"]
    ensures Distinct(Names(ModuleTools()))
  {
  }

  lemma AgentToolNames()
    ensures Names(AgentTools()) == ["retrieve_information", "add_event", "retrieve_nodes"]
    ensures Distinct(Names(AgentTools()))
    ensures forall i, j :: 0 <= i < 3 && 0 <= j < 3 ==> Names(AgentTools())[i] != Names(ModuleTools())[j]
  {
    ModuleToolNames();
  }

  /** Importing gemini_functions.py registers its three functions, and in that order. */
  lemma ImportedRegistry()
    ensures var (imported, failure) := RegisterAll(Empty(), ModuleTools());
      && failure == None && Filed(imported)
      && Values(imported) == ModuleTools()
      && imported.keys == Names(ModuleTools())
  {
    ModuleToolNames();
    RegisterAllFresh(Empty(), ModuleTools());
    var imported := RegisterAll(Empty(), ModuleTools()).0;
    assert [] + ModuleTools() == ModuleTools();
    FiledNames(imported);
  }

  /** The three registrations of the import, one after the other, each succeeding. */
  lemma ImportSteps()
    ensures var tools := ModuleTools();
      var (t1, r1) := Registered(Empty(), tools[0]);
      var (t2, r2) := Registered(t1, tools[1]);
      var (t3, r3) := Registered(t2, tools[2]);
      && r1.Ok? && r2.Ok? && r3.Ok?
      && Filed(t3) && Values(t3) == tools
  {
    var tools := ModuleTools();
    ModuleToolNames();
    var t1 := Registered(Empty(), tools[0]).0;
    RegisteredListedLast(Empty(), tools[0]);
    RegisteredFiled(Empty(), tools[0]);
    var t2 := Registered(t1, tools[1]).0;
    RegisteredListedLast(t1, tools[1]);
    RegisteredFiled(t1, tools[1]);
    RegisteredListedLast(t2, tools[2]);
    RegisteredFiled(t2, tools[2]);
  }

  /** After the import, a `DementiaAgent` registers its retriever's three methods, listed after the module's own. */
  lemma AgentRegistered()
    ensures var imported := RegisterAll(Empty(), ModuleTools()).0;
      var (withAgent, failure) := RegisterAll(imported, AgentTools());
      && failure == None && Filed(withAgent)
      && Values(withAgent) == ModuleTools() + AgentTools()
      && "retrieve_information" in withAgent.entries
  {
    ImportedRegistry();
    AgentToolNames();
    var imported := RegisterAll(Empty(), ModuleTools()).0;
    assert forall k :: k in imported.entries ==> k in imported.keys;
    RegisterAllFresh(imported, AgentTools());
    var withAgent := RegisterAll(imported, AgentTools()).0;
    FiledNames(withAgent);
    assert Values(withAgent)[3] == AgentTools()[0];
  }

  /** A second agent is refused on its first registration, and the registry stays as it was. */
  lemma SecondAgentRejected(table: Table)
    requires Filed(table) && "retrieve_information" in table.entries
    ensures RegisterAll(table, AgentTools())
      == (table, Some(ValueError(AlreadyRegistered("retrieve_information"))))
  {
    assert AgentTools()[0].name == "retrieve_information";
  }

  /** `__FUNCTION_REGISTRY`, with the functions defined over it. */
  class FunctionRegistry {
    var table: Table

    predicate Valid()
      reads this
    {
      Filed(table)
    }

    /** The registry before any registration. */
    constructor ()
      ensures Valid() && table == Empty()
    {
      table := Empty();
    }

    /** `register_function(f)` */
    method RegisterFunction(f: Tool) returns (r: Result<Tool>)
      requires Valid()
      modifies this
      ensures Valid()
      ensures (table, r) == Registered(old(table), f)
    {
      if f.name in table.entries {
        return Raise(ValueError(AlreadyRegistered(f.name)));
      }
      table := Put(table, f.name, f);
      r := Ok(f);
    }

    /** `function_from_registry(name)`: the function registered under `name`, or `ValueError`. */
    function FunctionFromRegistry(name: string): (r: Result<Tool>)
      requires Valid()
      reads this
      ensures r.Ok? <==> name in table.entries
      ensures r.Ok? ==> r.value.name == name && r.value == table.entries[name]
      ensures r.Raise? ==> r.exception == ValueError(NotRegistered(name))
    {
      if name in table.entries then Ok(table.entries[name]) else Raise(ValueError(NotRegistered(name)))
    }

    /** `get_functions()`: every registered function once, in registration order. */
    function GetFunctions(): (fs: seq<Tool>)
      requires Valid()
      reads this
      ensures |fs| == |table.keys|
      ensures forall i :: 0 <= i < |fs| ==> fs[i].name == table.keys[i] && fs[i] == table.entries[table.keys[i]]
      ensures Distinct(fs)
      ensures forall f :: f in fs <==> f.name in table.entries && table.entries[f.name] == f
    {
      var fs := Values(table);
      assert forall i :: 0 <= i < |fs| ==> fs[i].name == table.keys[i];
      fs
    }

    /** Importing gemini_functions.py: the three decorated definitions, in order. */
    static method ImportModule() returns (registry: FunctionRegistry)
      ensures fresh(registry) && registry.Valid()
      ensures registry.GetFunctions() == ModuleTools()
    {
      registry := new FunctionRegistry();
      var tools := ModuleTools();
      ImportSteps();
      var r0 := registry.RegisterFunction(tools[0]);
      var r1 := registry.RegisterFunction(tools[1]);
      var r2 := registry.RegisterFunction(tools[2]);
    }
  }
}
