/**
 * The AWS config file as the INI parser holds it: an ordered list of named
 * sections, each a map from option name to value. `ConfigParser` is the
 * parser object that the reconciler mutates in place.
 */
module Ini {
  import opened Wrappers

  type Options = map<string, string>

  datatype Section = Section(name: string, options: Options)

  /** The section names, in file order. */
  function Names(secs: seq<Section>): (ns: seq<string>)
    ensures |ns| == |secs|
    ensures forall i :: 0 <= i < |secs| ==> ns[i] == secs[i].name
  {
    seq(|secs|, i requires 0 <= i < |secs| => secs[i].name)
  }

  /** No two sections share a name (a parsed file never has duplicates). */
  predicate UniqueNames(secs: seq<Section>) {
    forall i, j :: 0 <= i < j < |secs| ==> secs[i].name != secs[j].name
  }

  /** The options of the section called `name`, if there is one. */
  function Find(secs: seq<Section>, name: string): (r: Option<Options>)
    ensures r.None? <==> name !in Names(secs)
  {
    if secs == [] then None
    else if secs[0].name == name then Some(secs[0].options)
    else (assert Names(secs) == [secs[0].name] + Names(secs[1..]); Find(secs[1..], name))
  }

  /** With unique names, looking a section up by its own name finds it. */
  lemma {:induction false} FindAt(secs: seq<Section>, i: nat)
    requires UniqueNames(secs) && i < |secs|
    ensures Find(secs, secs[i].name) == Some(secs[i].options)
  {
    if i > 0 {
      FindAt(secs[1..], i - 1);
    }
  }

  /** Lookup in a concatenation looks in the left part first. */
  lemma {:induction false} FindAppend(a: seq<Section>, b: seq<Section>, name: string)
    ensures Find(a + b, name) == if name in Names(a) then Find(a, name) else Find(b, name)
  {
    if a != [] {
      assert (a + b)[1..] == a[1..] + b;
      assert Names(a) == [a[0].name] + Names(a[1..]);
      FindAppend(a[1..], b, name);
    } else {
      assert a + b == b;
    }
  }

  /** The value of `option` in section `section` (`ConfigParser.Get`). */
  function GetOption(secs: seq<Section>, section: string, option: string): (r: Option<string>)
    ensures r.Some? <==> Find(secs, section).Some? && option in Find(secs, section).value
  {
    match Find(secs, section)
    case None => None
    case Some(opts) => if option in opts then Some(opts[option]) else None
  }

  /** Every section called `name` gets `kv` written over its options. */
  function UpdateOptions(secs: seq<Section>, name: string, kv: Options): (r: seq<Section>)
    ensures |r| == |secs| && Names(r) == Names(secs)
  {
    seq(|secs|, i requires 0 <= i < |secs| =>
      if secs[i].name == name then Section(name, secs[i].options + kv) else secs[i])
  }

  /** The sections not called `name`, in order. */
  function RemoveNamed(secs: seq<Section>, name: string): (r: seq<Section>)
    ensures |r| <= |secs|
  {
    if secs == [] then []
    else (if secs[0].name == name then [] else [secs[0]]) + RemoveNamed(secs[1..], name)
  }

  /** Removing a name from a list that holds it once, at position `i`,
      leaves the rest in order. */
  lemma {:induction false} RemoveNamedAt(secs: seq<Section>, i: nat)
    requires UniqueNames(secs) && i < |secs|
    ensures RemoveNamed(secs, secs[i].name) == secs[..i] + secs[i + 1..]
  {
    if i == 0 {
      assert secs[0].name !in Names(secs[1..]) by {
        forall j | 0 <= j < |secs| - 1 ensures Names(secs[1..])[j] != secs[0].name {
          assert secs[1..][j] == secs[j + 1];
        }
      }
      RemoveNamedAbsent(secs[1..], secs[0].name);
    } else {
      RemoveNamedAt(secs[1..], i - 1);
      assert secs[1..][..i - 1] == secs[1..i];
      assert secs[1..][i..] == secs[i + 1..];
      assert secs[..i] == [secs[0]] + secs[1..i];
    }
  }

  /** Dropping the section at position `i` keeps the names unique. */
  lemma RemoveAtUnique(secs: seq<Section>, i: nat)
    requires UniqueNames(secs) && i < |secs|
    ensures UniqueNames(secs[..i] + secs[i + 1..])
  {
    var r := secs[..i] + secs[i + 1..];
    forall a, b | 0 <= a < b < |r| ensures r[a].name != r[b].name {
      var a' := if a < i then a else a + 1;
      var b' := if b < i then b else b + 1;
      assert r[a] == secs[a'] && r[b] == secs[b'];
    }
  }

  lemma {:induction false} RemoveNamedAbsent(secs: seq<Section>, name: string)
    requires name !in Names(secs)
    ensures RemoveNamed(secs, name) == secs
  {
    if secs != [] {
      assert Names(secs) == [secs[0].name] + Names(secs[1..]);
      RemoveNamedAbsent(secs[1..], name);
    }
  }

  /** The parser object: the sections of one config file, changed in place. */
  class ConfigParser {
    var sections: seq<Section>

    ghost predicate Valid()
      reads this
    {
      UniqueNames(sections)
    }

    /** A parser holding a successfully parsed file. */
    constructor (parsed: seq<Section>)
      requires UniqueNames(parsed)
      ensures Valid() && sections == parsed
    {
      sections := parsed;
    }

    /** `HasSection`. */
    function HasSection(section: string): (b: bool)
      reads this
      ensures b <==> section in Names(sections)
    {
      Find(sections, section).Some?
    }

    /** `Get`: the option's value, or None where the library returns an error. */
    function Get(section: string, option: string): (r: Option<string>)
      reads this
      ensures r.Some? <==> section in Names(sections) && option in Find(sections, section).value
      ensures r.Some? ==> r.value == Find(sections, section).value[option]
    {
      GetOption(sections, section, option)
    }

    /** `Sections`: a snapshot of the section names. */
    function SectionNames(): (ns: seq<string>)
      reads this
      ensures |ns| == |sections|
      ensures forall i :: 0 <= i < |sections| ==> ns[i] == sections[i].name
    {
      Names(sections)
    }

    /** `AddSection`: appends an empty section; an existing name is an error
        and changes nothing. */
    method AddSection(section: string) returns (err: bool)
      requires Valid()
      modifies this
      ensures Valid()
      ensures err <==> section in Names(old(sections))
      ensures sections == if err then old(sections) else old(sections) + [Section(section, map[])]
    {
      err := HasSection(section);
      if !err {
        sections := sections + [Section(section, map[])];
      }
    }

    /** `Set`: writes one option of an existing section; a missing section is
        an error and changes nothing. */
    method Set(section: string, option: string, value: string) returns (err: bool)
      requires Valid()
      modifies this
      ensures Valid()
      ensures err <==> section !in Names(old(sections))
      ensures sections == UpdateOptions(old(sections), section, map[option := value])
    {
      err := !HasSection(section);
      sections := UpdateOptions(sections, section, map[option := value]);
    }

    /** `RemoveSection`: drops the named section; a missing one is an error. */
    method RemoveSection(section: string) returns (err: bool)
      requires Valid()
      modifies this
      ensures Valid()
      ensures err <==> section !in Names(old(sections))
      ensures sections == RemoveNamed(old(sections), section)
    {
      err := !HasSection(section);
      if err {
        RemoveNamedAbsent(sections, section);
      } else {
        ghost var i :| 0 <= i < |sections| && sections[i].name == section;
        RemoveNamedAt(sections, i);
        RemoveAtUnique(sections, i);
      }
      sections := RemoveNamed(sections, section);
    }
  }
}
