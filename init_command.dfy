/**
 * The `init` command: it writes an example settings file in the chosen
 * format, deriving the file name from the format when the default name is
 * kept and refusing to overwrite an existing file. The file system is
 * represented by what it answers (which paths exist, whether creating the
 * directory and writing the file succeed) and by the effects the command
 * asks for.
 */
module InitCommand {
  import opened GoStrings

  const FormatYaml := "yaml"
  const FormatJson := "json"
  const FormatToml := "toml"
  const DefaultFile := "aws-sso-config.yaml"

  /** The formats the command accepts, after lower-casing. */
  predicate ValidFormat(format: string) {
    format == FormatYaml || format == FormatJson || format == FormatToml
  }

  /** The file the command creates: the default name follows a non-yaml
      format; a name given explicitly is kept as it is. */
  function TargetFile(file: string, format: string): (r: string)
    ensures file != DefaultFile ==> r == file
    ensures file == DefaultFile && format != FormatYaml ==> r == "aws-sso-config." + format
    ensures file == DefaultFile && format == FormatYaml ==> r == DefaultFile
  {
    if file == DefaultFile && format != FormatYaml then "aws-sso-config." + format else file
  }

  /** With the default name, the extension always matches the format. */
  lemma DefaultFileFollowsFormat(format: string)
    requires ValidFormat(format)
    ensures TargetFile(DefaultFile, format) == "aws-sso-config." + format
  {
  }

  /** The part of a path up to and including its last '/', or "" when it
      has none. */
  function DirPart(path: string): (d: string)
    ensures d <= path
    ensures d == [] || d[|d| - 1] == '/'
    ensures forall i :: |d| <= i < |path| ==> path[i] != '/'
  {
    if path == [] then []
    else if path[|path| - 1] == '/' then path
    else DirPart(path[..|path| - 1])
  }

  /** `filepath.Dir`: "." for a bare file name, "/" for a file in the root,
      else the directory part without its trailing slashes. */
  function ParentDir(path: string): (d: string)
    ensures d != ""
    ensures (forall i :: 0 <= i < |path| ==> path[i] != '/') ==> d == "."
    ensures d == "." || d == "/" || (d <= path && d[|d| - 1] != '/')
  {
    var part := DirPart(path);
    if part == [] then "."
    else
      var d := TrimRightChar(part, '/');
      if d == [] then "/" else d
  }

  /** The example texts, one per format. */
  datatype Template = YamlExample | JsonExample | TomlExample

  /** The example written for a (validated) format; anything unexpected
      falls back to YAML. */
  function ContentFor(format: string): (t: Template)
    ensures format == FormatJson <==> t == JsonExample
    ensures format == FormatToml <==> t == TomlExample
  {
    if format == FormatYaml then YamlExample
    else if format == FormatJson then JsonExample
    else if format == FormatToml then TomlExample
    else YamlExample
  }

  /** A file-system action the command performs. */
  datatype FsEffect = MkdirAll(dir: string) | WriteFile(path: string, content: Template)

  /** How a run ends. */
  datatype InitOutcome =
    | Created(path: string)
    | BadFormat
    | AlreadyExists(path: string)
    | MkdirFailed(dir: string)
    | WriteFailed(path: string)

  /** The exit status of a run: 0 only when the file was created. */
  function ExitCode(o: InitOutcome): (code: int)
    ensures code == 0 <==> o.Created?
    ensures code == 0 || code == 1
  {
    if o.Created? then 0 else 1
  }

  /** The effects a run performs, in order, for the target file and the
      lower-cased format `fmt`, given the file-system answers. */
  function Effects(target: string, fmt: string, existing: set<string>, mkdirOk: bool): (effects: seq<FsEffect>)
    ensures !ValidFormat(fmt) || target in existing ==> effects == []
  {
    var dir := ParentDir(target);
    if !ValidFormat(fmt) || target in existing then []
    else if dir == "." then [WriteFile(target, ContentFor(fmt))]
    else if !mkdirOk then [MkdirAll(dir)]
    else [MkdirAll(dir), WriteFile(target, ContentFor(fmt))]
  }

  /** The command with its two flag values. */
  class Cmd {
    var file: string
    var format: string

    /** `Init`: the flag defaults. */
    constructor ()
      ensures file == DefaultFile && format == FormatYaml
    {
      file := DefaultFile;
      format := FormatYaml;
    }

    /** `Run`, after the flags are parsed: check the format, derive the
        file name, refuse an existing file, create the directory when the
        file is not in the current one, and write the example for the
        format. `existing` is the set of paths that exist; `mkdirOk` and
        `writeOk` say whether those calls succeed. */
    method Run(existing: set<string>, mkdirOk: bool, writeOk: bool)
      returns (code: int, outcome: InitOutcome, effects: seq<FsEffect>)
      modifies this
      ensures format == old(format)
      ensures !ValidFormat(ToLower(format)) ==> outcome == BadFormat && file == old(file)
      ensures ValidFormat(ToLower(format)) ==> file == TargetFile(old(file), ToLower(format))
      ensures ValidFormat(ToLower(format)) && file in existing ==> outcome == AlreadyExists(file)
      ensures outcome.Created? <==>
        ValidFormat(ToLower(format)) && file !in existing && (ParentDir(file) == "." || mkdirOk) && writeOk
      ensures outcome.Created? ==> outcome.path == file && effects != [] && effects[|effects| - 1] == WriteFile(file, ContentFor(ToLower(format)))
      ensures outcome.MkdirFailed? ==> outcome.dir == ParentDir(file) && !mkdirOk
      ensures effects == Effects(file, ToLower(format), existing, mkdirOk)
      ensures code == ExitCode(outcome)
    {
      var fmt := ToLower(format);
      if fmt != FormatYaml && fmt != FormatJson && fmt != FormatToml {
        return 1, BadFormat, [];
      }
      if file == DefaultFile && fmt != FormatYaml {
        file := "aws-sso-config." + fmt;
      }
      var target := file;
      assert target == TargetFile(old(file), fmt);
      if target in existing {
        return 1, AlreadyExists(target), [];
      }
      code, outcome, effects := CreateFile(target, fmt, mkdirOk, writeOk);
    }
  }

  /** The steps of `Run` after the checks: make the directory unless the
      file is in the current one, then write the example for `fmt`. */
  method CreateFile(target: string, fmt: string, mkdirOk: bool, writeOk: bool)
    returns (code: int, outcome: InitOutcome, effects: seq<FsEffect>)
    requires ValidFormat(fmt)
    ensures outcome.Created? <==> (ParentDir(target) == "." || mkdirOk) && writeOk
    ensures outcome.Created? ==> outcome.path == target && effects != [] && effects[|effects| - 1] == WriteFile(target, ContentFor(fmt))
    ensures outcome.MkdirFailed? ==> outcome.dir == ParentDir(target) && !mkdirOk
    ensures outcome.Created? || outcome.MkdirFailed? || outcome == WriteFailed(target)
    ensures forall e :: e in effects ==> e == MkdirAll(ParentDir(target)) || e == WriteFile(target, ContentFor(fmt))
    ensures effects == Effects(target, fmt, {}, mkdirOk)
    ensures code == ExitCode(outcome)
  {
    effects := [];
    var dir := ParentDir(target);
    if dir != "." {
      effects := effects + [MkdirAll(dir)];
      if !mkdirOk {
        return 1, MkdirFailed(dir), effects;
      }
    }
    var content := YamlExample;
    if fmt == FormatYaml {
      content := YamlExample;
    } else if fmt == FormatJson {
      content := JsonExample;
    } else if fmt == FormatToml {
      content := TomlExample;
    }
    effects := effects + [WriteFile(target, content)];
    if !writeOk {
      return 1, WriteFailed(target), effects;
    }
    return 0, Created(target), effects;
  }

  /** Nothing is touched when the format is rejected or the target exists,
      and a file is written only after its directory, if any, is made. */
  lemma EffectsOrder(file: string, format: string, existing: set<string>, mkdirOk: bool)
    ensures var effects := Effects(file, ToLower(format), existing, mkdirOk);
      forall k :: 0 <= k < |effects| && effects[k].WriteFile? ==>
        k == |effects| - 1 && effects[k].path !in existing
        && (ParentDir(effects[k].path) != "." ==> k == 1 && effects[0] == MkdirAll(ParentDir(effects[k].path)))
  {
  }

  /** A format written in any mix of upper and lower case that lower-cases
      to an accepted format is accepted, and the default file then takes
      that format's lower-case name as its extension. */
  lemma AnyCaseFormat(f: string, v: string)
    requires ValidFormat(v)
    requires |f| == |v| && forall k :: 0 <= k < |f| ==> LowerChar(f[k]) == v[k]
    ensures ToLower(f) == v && ValidFormat(ToLower(f))
    ensures TargetFile(DefaultFile, ToLower(f)) == "aws-sso-config." + v
  {
    assert ToLower(f) == v;
    DefaultFileFollowsFormat(v);
  }
}
