/**
 * The `open_dxf` command (tclCommands/TclCommandOpenDXF.py): its argument
 * descriptor, and how `execute` turns the validated arguments into the
 * object name and object kind it opens the file as.
 */
module OpenDxf {
  import opened Wrappers
  import opened Text
  import opened TclCommand

  /** The command's declaration: `open_dxf <filename> [-type t] [-outname n]`. */
  const OpenDxfCommand := Descriptor(
    ["open_dxf"],
    [("filename", StrType)],
    map["type" := StrType, "outname" := StrType],
    ["filename"])

  /** The object kinds a DXF file can be opened as. */
  predicate IsObjectKind(t: string)
  {
    t == "geometry" || t == "gerber"
  }

  /**
   * `filename.split('/')[-1].split('\\')[-1]`: the last path component, with
   * either kind of separator.
   */
  function DefaultOutname(filename: string): (name: string)
    ensures '/' !in name && '\\' !in name
    ensures |name| <= |filename| && filename[|filename| - |name|..] == name
    ensures |name| == |filename| || filename[|filename| - |name| - 1] == '/' || filename[|filename| - |name| - 1] == '\\'
  {
    var afterSlash := AfterLast(filename, '/');
    var name := AfterLast(afterSlash, '\\');
    SuffixOfSuffix(filename, afterSlash, name);
    name
  }

  /** A suffix of a suffix is a suffix, and draws its characters from the middle one. */
  lemma SuffixOfSuffix(s: string, m: string, r: string)
    requires |m| <= |s| && s[|s| - |m|..] == m
    requires |r| <= |m| && m[|m| - |r|..] == r
    ensures s[|s| - |r|..] == r
    ensures forall c :: c in r ==> c in m
    ensures |r| < |m| ==> s[|s| - |r| - 1] == m[|m| - |r| - 1]
  {
    assert s[|s| - |m|..][|m| - |r|..] == s[|s| - |r|..];
    forall c | c in r ensures c in m {
      var i :| 0 <= i < |r| && r[i] == c;
      assert m[|m| - |r| + i] == c;
    }
  }

  /** Python's `str(n)` for an integer. */
  function IntToDecimal(i: int): string
  {
    if i < 0 then "-" + NatToDecimal(-i) else NatToDecimal(i)
  }

  /** Python's `str(v)` for a validated argument value. */
  function PyStr(v: Value): string
  {
    match v
    case Str(s) => s
    case Int(i) => IntToDecimal(i)
    case NoneValue => "None"
  }

  /** What `execute` opens: the file, the name of the new object and its kind. */
  datatype Request = Request(filename: string, outname: Value, objType: string)

  /** The error `execute` raises for a kind other than geometry or gerber. */
  function TypeError(objType: string): TclError
  {
    CommandError("Option type can be 'geometry' or 'gerber' only, got '" + objType + "'.")
  }

  /**
   * The top of `execute`: `outname` verbatim when given, otherwise derived
   * from the file name; `type` lower-cased, `geometry` when absent; any kind
   * but geometry or gerber is an error naming the kind.
   */
  function OpenRequest(named: map<string, Value>): (r: Result<Request, TclError>)
    requires "filename" in named && named["filename"].Str?
    ensures r.Success? ==> IsObjectKind(r.value.objType) && r.value.filename == named["filename"].s
    ensures r.Success? && "outname" in named ==> r.value.outname == named["outname"]
    ensures r.Success? && "outname" !in named ==> r.value.outname == Str(DefaultOutname(named["filename"].s))
    ensures "type" !in named ==> r.Success? && r.value.objType == "geometry"
    ensures "type" in named ==>
      (r.Success? <==> IsObjectKind(Lower(PyStr(named["type"])))) &&
      (r.Success? ==> r.value.objType == Lower(PyStr(named["type"]))) &&
      (r.Failure? ==> r.error == TypeError(Lower(PyStr(named["type"]))))
  {
    var filename := named["filename"].s;
    var outname := if "outname" in named then named["outname"] else Str(DefaultOutname(filename));
    var objType := if "type" in named then Lower(PyStr(named["type"])) else "geometry";
    if !IsObjectKind(objType) then Failure(TypeError(objType))
    else Success(Request(filename, outname, objType))
  }

  // ===========================================================================
  // Properties

  /** The validator only accepts `open_dxf` arguments whose file name is the first positional, as a string. */
  lemma {:induction false} CheckedFilename(args: seq<string>)
    requires Checked(OpenDxfCommand, args).Success?
    ensures |Parsed(args).0| >= 1
    ensures "filename" in Checked(OpenDxfCommand, args).value.named
    ensures Checked(OpenDxfCommand, args).value.named["filename"] == Str(Parsed(args).0[0])
  {
    var d := OpenDxfCommand;
    var parsed := Parsed(args);
    var bound := BindPositionals(d.argNames, parsed.0, 0, map[], []);
    BindPositionalsNamed(d.argNames, parsed.0, 0, map[], []);
    ParsedMatchesReference(args);
    ParsedValid(args);
    BindOptionsSpec(d, parsed.1, 0, bound.value.0);
    var named := Checked(d, args).value.named;
    assert "filename" in named by {
      CheckedRequired(d, args);
    }
    assert "filename" !in parsed.1.keys[0..];
    assert "filename" in bound.value.0;
    assert named["filename"] == bound.value.0["filename"];
  }

  /** A valueless `-type` reaches `execute` as `None`, which reads "none" and is rejected. */
  lemma ValuelessTypeRejected(named: map<string, Value>)
    requires "filename" in named && named["filename"].Str?
    requires "type" in named && named["type"] == NoneValue
    ensures OpenRequest(named) == Failure(TypeError("none"))
  {
    assert Lower("None") == "none";
  }

  /** The kind is matched without regard to case. */
  lemma UpperCaseKindAccepted(named: map<string, Value>)
    requires "filename" in named && named["filename"].Str?
    requires "type" in named && named["type"] == Str("GERBER")
    ensures OpenRequest(named).Success? && OpenRequest(named).value.objType == "gerber"
  {
    assert Lower("GERBER") == "gerber";
  }

  /** How the tokenizer splits `<filename> -type <kind> -outname <outname>`. */
  lemma {:induction false} ParsedTypeAndOutname(filename: string, kind: string, outname: string)
    requires !IsFlag(filename) && !IsFlag(kind) && !IsFlag(outname)
    ensures Parsed([filename, "-type", kind, "-outname", outname]) ==
      ([filename], OptionDict(["type", "outname"], map["type" := Some(kind), "outname" := Some(outname)]))
  {
    assert "-type"[1..] == "type" && "-outname"[1..] == "outname";
    ParsedArgAndTwoOptions(filename, "-type", kind, "-outname", outname);
  }

  /**
   * `open_dxf <filename> -type <kind> -outname <outname>` binds the three
   * keys and leaves nothing unnamed; with a kind that lower-cases to
   * geometry or gerber, `execute` opens `filename` as that kind, named
   * `outname`.
   */
  lemma {:induction false} TypeAndOutnameAccepted(filename: string, kind: string, outname: string)
    requires !IsFlag(filename) && !IsFlag(kind) && !IsFlag(outname)
    ensures var named := map["filename" := Str(filename), "type" := Str(kind), "outname" := Str(outname)];
      Checked(OpenDxfCommand, [filename, "-type", kind, "-outname", outname]) == Success(Typed(named, []))
    ensures IsObjectKind(Lower(kind)) ==>
      OpenRequest(Checked(OpenDxfCommand, [filename, "-type", kind, "-outname", outname]).value.named) ==
        Success(Request(filename, Str(outname), Lower(kind)))
  {
    var d := OpenDxfCommand;
    ParsedTypeAndOutname(filename, kind, outname);
    var dict := OptionDict(["type", "outname"], map["type" := Some(kind), "outname" := Some(outname)]);
    var bound := map["filename" := Str(filename)];
    assert BindPositionals(d.argNames, [filename], 1, bound, []) == Success((bound, []));
    assert BindPositionals(d.argNames, [filename], 0, map[], []) == Success((bound, []));
    var named := map["filename" := Str(filename), "type" := Str(kind), "outname" := Str(outname)];
    assert BindOptions(d, dict, 2, named) == Success(named);
    assert BindOptions(d, dict, 1, bound["type" := Str(kind)]) == Success(named);
    assert BindOptions(d, dict, 0, bound) == Success(named);
    assert FirstMissing(d.required, named) == None;
  }

  /**
   * The documented example: `open_dxf myfile.dxf -type geometry -outname geo1`
   * yields `{filename: "myfile.dxf", type: "geometry", outname: "geo1"}` with
   * nothing unnamed, and opens `myfile.dxf` as geometry named `geo1`.
   */
  lemma OpenDxfExample()
    ensures var args := ["myfile.dxf", "-type", "geometry", "-outname", "geo1"];
      var named := map["filename" := Str("myfile.dxf"), "type" := Str("geometry"), "outname" := Str("geo1")];
      && Checked(OpenDxfCommand, args) == Success(Typed(named, []))
      && OpenRequest(named) == Success(Request("myfile.dxf", Str("geo1"), "geometry"))
  {
    assert Lower("geometry") == "geometry";
    TypeAndOutnameAccepted("myfile.dxf", "geometry", "geo1");
  }

  /** The command line recorded for `open_dxf` starts with its name. */
  lemma OpenDxfCommandLine(args: seq<string>)
    ensures var cmd := CurrentCommand(OpenDxfCommand.aliases, Some(args));
      |cmd| >= 8 && cmd[..8] == "open_dxf"
  {
    CurrentCommandSplits(OpenDxfCommand.aliases, Some(args));
  }

  /** With `outname` absent, a POSIX path gives its bare file name. */
  lemma {:induction false} DefaultOutnamePosix(dir: string, base: string)
    requires '/' !in base && '\\' !in base
    ensures DefaultOutname(dir + "/" + base) == base
  {
    var path := dir + "/" + base;
    assert path[|dir| + 1..] == base;
    AfterLastIs(path, '/', |dir| + 1);
    AfterLastIs(base, '\\', 0);
  }

  /** With `outname` absent, a Windows path gives its bare file name. */
  lemma {:induction false} DefaultOutnameWindows(dir: string, base: string)
    requires '/' !in dir && '/' !in base && '\\' !in base
    ensures DefaultOutname(dir + "\\" + base) == base
  {
    var path := dir + "\\" + base;
    assert path[0..] == path;
    assert '/' !in path;
    AfterLastIs(path, '/', 0);
    assert path[|dir| + 1..] == base;
    AfterLastIs(path, '\\', |dir| + 1);
  }
}
