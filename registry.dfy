/**
 * The table of subcommands: each entry's name is bound to the command it
 * builds; a name that is already bound stops the registration with a
 * "duplicate command" panic, reported here as the offending name.
 */
module Registry {
  import opened Wrappers

  /** The command an entry's factory builds. */
  datatype CommandKind = ConfigCommand | ConfigWriteCommand | GenerateCommand | RunCommand

  datatype Entry = Entry(name: string, command: CommandKind)

  function EntryNames(entries: seq<Entry>): (names: seq<string>)
    ensures |names| == |entries|
    ensures forall i :: 0 <= i < |entries| ==> names[i] == entries[i].name
  {
    seq(|entries|, i requires 0 <= i < |entries| => entries[i].name)
  }

  predicate Distinct(names: seq<string>) {
    forall i, j :: 0 <= i < j < |names| ==> names[i] != names[j]
  }

  /** What registering `entries` into `m` gives: the table after the last
      insertion and, if registration stopped, the duplicate name. */
  function Registered(m: map<string, CommandKind>, entries: seq<Entry>): (r: (map<string, CommandKind>, Option<string>))
    ensures r.1.Some? ==> exists i :: 0 <= i < |entries| && entries[i].name == r.1.value
    decreases |entries|
  {
    if entries == [] then (m, None)
    else if entries[0].name in m then (m, Some(entries[0].name))
    else Registered(m[entries[0].name := entries[0].command], entries[1..])
  }

  /** Bindings already present are never replaced, whether or not
      registration stops. */
  lemma {:induction false} RegisteredKeeps(m: map<string, CommandKind>, entries: seq<Entry>)
    ensures var r := Registered(m, entries).0;
      forall k :: k in m ==> k in r && r[k] == m[k]
    decreases |entries|
  {
    if entries != [] && entries[0].name !in m {
      RegisteredKeeps(m[entries[0].name := entries[0].command], entries[1..]);
    }
  }

  /** When registration finishes, the table holds the old bindings plus
      every entry's name, bound to its command. */
  lemma {:induction false} RegisteredBindsAll(m: map<string, CommandKind>, entries: seq<Entry>)
    requires Registered(m, entries).1.None?
    ensures var r := Registered(m, entries).0;
      && r.Keys == m.Keys + (set e | e in entries :: e.name)
      && forall i :: 0 <= i < |entries| ==> r[entries[i].name] == entries[i].command
    decreases |entries|
  {
    if entries != [] {
      var e, rest := entries[0], entries[1..];
      var m' := m[e.name := e.command];
      RegisteredBindsAll(m', rest);
      RegisteredKeeps(m', rest);
      var r := Registered(m', rest).0;
      assert (set x | x in entries :: x.name) == {e.name} + set x | x in rest :: x.name by {
        forall x | x in entries ensures x == e || x in rest {
          var i :| 0 <= i < |entries| && entries[i] == x;
          if i > 0 { assert rest[i - 1] == x; }
        }
      }
      forall i | 0 <= i < |entries| ensures r[entries[i].name] == entries[i].command {
        if i > 0 { assert entries[i] == rest[i - 1]; }
      }
    }
  }

  /** Registration finishes exactly when the names are distinct and none
      is bound already. */
  lemma {:induction false} RegisteredNoDuplicate(m: map<string, CommandKind>, entries: seq<Entry>)
    ensures Registered(m, entries).1.None?
      <==> Distinct(EntryNames(entries)) && forall i :: 0 <= i < |entries| ==> entries[i].name !in m
    decreases |entries|
  {
    if entries != [] {
      var e, rest := entries[0], entries[1..];
      if e.name !in m {
        var m' := m[e.name := e.command];
        RegisteredNoDuplicate(m', rest);
        if Distinct(EntryNames(entries)) && forall i :: 0 <= i < |entries| ==> entries[i].name !in m {
          forall i, j | 0 <= i < j < |rest| ensures EntryNames(rest)[i] != EntryNames(rest)[j] {
            assert EntryNames(entries)[i + 1] != EntryNames(entries)[j + 1];
          }
          forall i | 0 <= i < |rest| ensures rest[i].name !in m' {
            assert EntryNames(entries)[0] != EntryNames(entries)[i + 1];
          }
        }
        if Registered(m', rest).1.None? {
          RegisteredBindsAll(m', rest);
          forall i, j | 0 <= i < j < |entries| ensures EntryNames(entries)[i] != EntryNames(entries)[j] {
            assert entries[j] == rest[j - 1];
            if i > 0 {
              assert entries[i] == rest[i - 1];
              assert EntryNames(rest)[i - 1] != EntryNames(rest)[j - 1];
            }
          }
          forall i | 0 <= i < |entries| ensures entries[i].name !in m {
            if i > 0 { assert entries[i] == rest[i - 1]; }
          }
        }
      } else {
        assert entries[0].name in m;
      }
    }
  }

  /** Registration succeeds exactly when the names are distinct and none
      is bound already; then every entry's name is bound to its command and
      the table holds nothing else new. Bindings already present are never
      replaced, whether or not registration stops. */
  lemma RegisteredSpec(m: map<string, CommandKind>, entries: seq<Entry>)
    ensures var (r, dup) := Registered(m, entries);
      && (dup.None? <==> Distinct(EntryNames(entries)) && forall i :: 0 <= i < |entries| ==> entries[i].name !in m)
      && (forall k :: k in m ==> k in r && r[k] == m[k])
      && (dup.None? ==> r.Keys == m.Keys + set e | e in entries :: e.name)
      && (dup.None? ==> forall i :: 0 <= i < |entries| ==> r[entries[i].name] == entries[i].command)
  {
    RegisteredNoDuplicate(m, entries);
    RegisteredKeeps(m, entries);
    if Registered(m, entries).1.None? {
      RegisteredBindsAll(m, entries);
    }
  }

  /** The command table. */
  class Registry {
    var commands: map<string, CommandKind>

    constructor ()
      ensures commands == map[]
    {
      commands := map[];
    }

    /** `registerCommands`: binds each entry's name in order and stops at
        the first name that is bound already, returning it. */
    method RegisterCommands(entries: seq<Entry>) returns (duplicate: Option<string>)
      modifies this
      ensures (commands, duplicate) == Registered(old(commands), entries)
    {
      var i := 0;
      while i < |entries|
        invariant 0 <= i <= |entries|
        invariant Registered(commands, entries[i..]) == Registered(old(commands), entries)
      {
        var ent := entries[i];
        assert entries[i..][0] == ent && entries[i..][1..] == entries[i + 1..];
        if ent.name in commands {
          return Some(ent.name);
        }
        commands := commands[ent.name := ent.command];
        i := i + 1;
      }
      return None;
    }
  }

  /** The entries `RegisteredCommands` registers. */
  const Commands := [
    Entry("config", ConfigCommand),
    Entry("config write", ConfigWriteCommand),
    Entry("generate", GenerateCommand),
    Entry("run", RunCommand)]

  /** The four command names are distinct. */
  lemma CommandsDistinct()
    ensures Distinct(EntryNames(Commands))
  {
    assert EntryNames(Commands) == ["config", "config write", "generate", "run"];
  }

  /** The four command names are exactly the table's keys. */
  lemma CommandKeys()
    ensures (set e | e in Commands :: e.name) == {"config", "config write", "generate", "run"}
  {
    assert forall e :: e in Commands ==> e.name in EntryNames(Commands);
  }

  /** `RegisteredCommands`: a fresh table holding the four commands. */
  method RegisteredCommands() returns (r: map<string, CommandKind>)
    ensures r.Keys == {"config", "config write", "generate", "run"}
    ensures r["config"] == ConfigCommand && r["config write"] == ConfigWriteCommand
    ensures r["generate"] == GenerateCommand && r["run"] == RunCommand
  {
    var registry := new Registry();
    var duplicate := registry.RegisterCommands(Commands);
    CommandsDistinct();
    CommandKeys();
    RegisteredNoDuplicate(map[], Commands);
    RegisteredBindsAll(map[], Commands);
    r := registry.commands;
    assert r[Commands[0].name] == ConfigCommand;
    assert r[Commands[1].name] == ConfigWriteCommand;
    assert r[Commands[2].name] == GenerateCommand;
    assert r[Commands[3].name] == RunCommand;
  }
}
