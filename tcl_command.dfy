/**
 * The console's command base (tclCommands/TclCommand.py): the tokenizer that
 * splits a command's raw tokens into positionals and `-option value` pairs,
 * the validator that binds them to a command's descriptor, the reconstructed
 * command line, and the signalled command's call step.
 */
module TclCommand {
  import opened Wrappers
  import opened Seqs
  import opened Text
  import opened Outcomes

  // ===========================================================================
  // Descriptors, values and errors

  /** The type constructors the descriptors use for coercion: `str` and `int`. */
  datatype ArgType = StrType | IntType

  /** A coerced argument; `NoneValue` is the `None` that a valueless option flag leaves. */
  datatype Value = Str(s: string) | Int(i: int) | NoneValue

  /**
   * A command's static schema: its aliases, its ordered positional names with
   * their types (`arg_names`), its option types (`option_types`) and the keys
   * it requires (`required`).
   */
  datatype Descriptor = Descriptor(
    aliases: seq<string>,
    argNames: seq<(string, ArgType)>,
    optionTypes: map<string, ArgType>,
    required: seq<string>)

  /** The positional names are distinct, as the keys of an OrderedDict are. */
  predicate DistinctNames(names: seq<(string, ArgType)>)
  {
    forall i, j :: 0 <= i < j < |names| ==> names[i].0 != names[j].0
  }

  /** The errors `raise_tcl_error` raises, one per message of the source, and the one `KeyError`. */
  datatype TclError =
    | CastNamedFailed(key: string)          // "Cannot cast named argument ..."
    | UnknownParameter(key: string)         // "Unknown parameter: ..."
    | CastOptionFailed(key: string)         // "Cannot cast argument '-...' ..."
    | MissingRequired(key: string)          // "Missing required argument ..."
    | OptionTypeLookupFailed(key: string)   // KeyError raised while formatting the cast message
    | CommandError(message: string)         // raised by a command's own execute

  /** The result of `check_args`: `named_args` and `unnamed_args`. */
  datatype Typed = Typed(named: map<string, Value>, unnamed: seq<string>)

  /** `arg_type(raw)`: `str` keeps the text, `int` parses it; a failing parse raises. */
  function Coerce(t: ArgType, raw: string): (v: Option<Value>)
    ensures t == StrType ==> v == Some(Str(raw))
    ensures t == IntType && v.Some? ==> v.value.Int? && ParseInt(raw) == Some(v.value.i)
    ensures t == IntType && v.None? ==> ParseInt(raw).None?
  {
    match t
    case StrType => Some(Str(raw))
    case IntType =>
      match ParseInt(raw)
      case Some(n) => Some(Int(n))
      case None => None
  }

  // ===========================================================================
  // parse_arguments

  /** A token matching `^-[a-zA-Z]`: it opens an option. */
  predicate IsFlag(tok: string)
  {
    |tok| >= 2 && tok[0] == '-' && IsAsciiLetter(tok[1])
  }

  /** The longest prefix of `s` without a newline (what `.*` matches). */
  function UpToNewline(s: string): (r: string)
    ensures '\n' !in r
    ensures |r| <= |s| && s[..|r|] == r
    ensures |r| == |s| || s[|r|] == '\n'
  {
    if s == [] || s[0] == '\n' then [] else [s[0]] + UpToNewline(s[1..])
  }

  /** The option name a flag opens: group 1 of `^-([a-zA-Z].*)`. */
  function FlagName(tok: string): (name: string)
    requires IsFlag(tok)
    ensures |name| >= 1 && name[0] == tok[1]
    ensures '\n' !in name
  {
    UpToNewline(tok[1..])
  }

  /** A Python dict of options: its keys in insertion order and its entries. */
  datatype OptionDict = OptionDict(keys: seq<string>, values: map<string, Option<string>>)

  const EmptyDict := OptionDict([], map[])

  /** The keys are distinct and are exactly the entries' keys. */
  ghost predicate ValidDict(d: OptionDict)
  {
    NoDuplicates(d.keys) && forall k :: k in d.values <==> k in d.keys
  }

  /** `d[k] = v`: a new key goes last, an existing key keeps its place. */
  function Put(d: OptionDict, k: string, v: Option<string>): (r: OptionDict)
    ensures r.values == d.values[k := v]
    ensures k in d.values ==> r.keys == d.keys
    ensures k !in d.values ==> r.keys == d.keys + [k]
  {
    if k in d.values then d.(values := d.values[k := v])
    else OptionDict(d.keys + [k], d.values[k := v])
  }

  /** Storing an entry keeps the keys distinct and in step with the entries. */
  lemma PutValid(d: OptionDict, k: string, v: Option<string>)
    requires ValidDict(d)
    ensures ValidDict(Put(d, k, v))
  {
    if k !in d.values {
      var keys := d.keys + [k];
      forall i, j | 0 <= i < j < |keys| ensures keys[i] != keys[j] {
        if j == |d.keys| {
          assert keys[i] in d.keys;
        }
      }
    }
  }

  /** The raw value stored for `k`, `None` when there is none. */
  function Lookup(d: OptionDict, k: string): Option<string>
  {
    if k in d.values then d.values[k] else None
  }

  /** The tokenizer's state: `arguments`, `options` and the open `option_name`. */
  datatype ParseState = ParseState(arguments: seq<string>, options: OptionDict, optionName: Option<string>)

  const Start := ParseState([], EmptyDict, None)

  /** One iteration of the tokenizer's loop. */
  function Step(st: ParseState, tok: string): ParseState
  {
    if IsFlag(tok) then
      var options := if st.optionName.Some? then Put(st.options, st.optionName.value, None) else st.options;
      ParseState(st.arguments, options, Some(FlagName(tok)))
    else if st.optionName.None? then
      st.(arguments := st.arguments + [tok])
    else
      ParseState(st.arguments, Put(st.options, st.optionName.value, Some(tok)), None)
  }

  /** The state after the loop has consumed all of `toks`. */
  function Scan(toks: seq<string>): ParseState
  {
    if toks == [] then Start else Step(Scan(toks[..|toks| - 1]), Last(toks))
  }

  /** The tokenizer's option dict is always a well-formed dict. */
  lemma {:induction false} ScanValid(toks: seq<string>)
    ensures ValidDict(Scan(toks).options)
  {
    if toks != [] {
      var st := Scan(toks[..|toks| - 1]);
      ScanValid(toks[..|toks| - 1]);
      var tok := Last(toks);
      if IsFlag(tok) {
        if st.optionName.Some? {
          PutValid(st.options, st.optionName.value, None);
        }
      } else if st.optionName.Some? {
        PutValid(st.options, st.optionName.value, Some(tok));
      }
    }
  }

  /** Scanning one more token is one more step. */
  lemma {:induction false} ScanSnoc(toks: seq<string>, tok: string)
    ensures Scan(toks + [tok]) == Step(Scan(toks), tok)
  {
    assert (toks + [tok])[..|toks|] == toks;
  }

  /** A positional token with no option open is appended to the arguments. */
  lemma {:induction false} ScanPositional(toks: seq<string>, tok: string)
    requires Scan(toks).optionName.None? && !IsFlag(tok)
    ensures Scan(toks + [tok]) == Scan(toks).(arguments := Scan(toks).arguments + [tok])
  {
    ScanSnoc(toks, tok);
  }

  /** A newline-free flag with no option open opens the option it names. */
  lemma {:induction false} ScanOpensOption(toks: seq<string>, tok: string)
    requires Scan(toks).optionName.None? && IsFlag(tok) && '\n' !in tok
    ensures Scan(toks + [tok]) == Scan(toks).(optionName := Some(tok[1..]))
  {
    ScanSnoc(toks, tok);
    FlagNameWithoutNewline(tok);
  }

  /** A non-flag token after an open option becomes that option's value and closes it. */
  lemma {:induction false} ScanOptionValue(toks: seq<string>, tok: string)
    requires Scan(toks).optionName.Some? && !IsFlag(tok)
    ensures Scan(toks + [tok]) ==
      ParseState(Scan(toks).arguments, Put(Scan(toks).options, Scan(toks).optionName.value, Some(tok)), None)
  {
    ScanSnoc(toks, tok);
  }

  /** `parse_arguments(toks)`: a dangling option at the end is closed with `None`. */
  function Parsed(toks: seq<string>): (seq<string>, OptionDict)
  {
    var st := Scan(toks);
    (st.arguments, if st.optionName.Some? then Put(st.options, st.optionName.value, None) else st.options)
  }

  /** The options `parse_arguments` returns form a well-formed dict: no key twice. */
  lemma {:induction false} ParsedValid(toks: seq<string>)
    ensures ValidDict(Parsed(toks).1)
    ensures NoDuplicates(Parsed(toks).1.keys)
  {
    var st := Scan(toks);
    ScanValid(toks);
    if st.optionName.Some? {
      PutValid(st.options, st.optionName.value, None);
    }
  }

  /** The tokenizer, as the source runs it: one pass with the open option name carried along. */
  method ParseArguments(args: seq<string>) returns (arguments: seq<string>, options: OptionDict)
    ensures (arguments, options) == Parsed(args)
    ensures ValidDict(options)
  {
    arguments := [];
    options := EmptyDict;
    var optionName: Option<string> := None;
    for i := 0 to |args|
      invariant ParseState(arguments, options, optionName) == Scan(args[..i])
    {
      assert args[..i + 1][..i] == args[..i];
      if IsFlag(args[i]) {
        if optionName.Some? {
          options := Put(options, optionName.value, None);
        }
        optionName := Some(FlagName(args[i]));
        continue;
      }
      if optionName.None? {
        arguments := arguments + [args[i]];
      } else {
        options := Put(options, optionName.value, Some(args[i]));
        optionName := None;
      }
    }
    assert args[..|args|] == args;
    if optionName.Some? {
      options := Put(options, optionName.value, None);
    }
    ParsedValid(args);
  }

  // --- a reference description of the tokenizer, token by token --------------

  /** Token `i` is a positional: not a flag, and not the value of a flag just before it. */
  predicate IsPositionalAt(toks: seq<string>, i: nat)
    requires i < |toks|
  {
    !IsFlag(toks[i]) && (i == 0 || !IsFlag(toks[i - 1]))
  }

  /** The value the flag at `i` takes: the next token unless the input ends or a flag follows. */
  function OptionValueAt(toks: seq<string>, i: nat): Option<string>
    requires i < |toks| && IsFlag(toks[i])
  {
    if i + 1 < |toks| && !IsFlag(toks[i + 1]) then Some(toks[i + 1]) else None
  }

  /** The positionals among the first `j` tokens, in input order. */
  function PositionalsUpTo(toks: seq<string>, j: nat): seq<string>
    requires j <= |toks|
  {
    if j == 0 then []
    else PositionalsUpTo(toks, j - 1) + (if IsPositionalAt(toks, j - 1) then [toks[j - 1]] else [])
  }

  /** The options opened among the first `j` tokens; a later flag overrides an earlier one. */
  function OptionsUpTo(toks: seq<string>, j: nat): map<string, Option<string>>
    requires j <= |toks|
  {
    if j == 0 then map[]
    else if IsFlag(toks[j - 1]) then OptionsUpTo(toks, j - 1)[FlagName(toks[j - 1]) := OptionValueAt(toks, j - 1)]
    else OptionsUpTo(toks, j - 1)
  }

  /** The carried state after `j` tokens agrees with the token-by-token description. */
  lemma {:induction false} ScanMatchesReference(toks: seq<string>, j: nat)
    requires j <= |toks|
    ensures Scan(toks[..j]).arguments == PositionalsUpTo(toks, j)
    ensures j > 0 && IsFlag(toks[j - 1]) ==>
      Scan(toks[..j]).optionName == Some(FlagName(toks[j - 1])) &&
      Scan(toks[..j]).options.values == OptionsUpTo(toks, j - 1)
    ensures !(j > 0 && IsFlag(toks[j - 1])) ==>
      Scan(toks[..j]).optionName == None &&
      Scan(toks[..j]).options.values == OptionsUpTo(toks, j)
  {
    if j > 0 {
      ScanMatchesReference(toks, j - 1);
      assert toks[..j][..j - 1] == toks[..j - 1];
      assert Last(toks[..j]) == toks[j - 1];
    }
  }

  /**
   * `parse_arguments` returns as arguments exactly the tokens that are neither
   * flags nor a flag's value, in input order, and as options every flag's name
   * with the value its last occurrence took.
   */
  lemma {:induction false} ParsedMatchesReference(toks: seq<string>)
    ensures Parsed(toks).0 == PositionalsUpTo(toks, |toks|)
    ensures Parsed(toks).1.values == OptionsUpTo(toks, |toks|)
  {
    var n := |toks|;
    ScanMatchesReference(toks, n);
    assert toks[..n] == toks;
    var st := Scan(toks);
    if n > 0 && IsFlag(toks[n - 1]) {
      assert st.optionName == Some(FlagName(toks[n - 1]));
      assert OptionValueAt(toks, n - 1) == None;
      assert Parsed(toks).1.values == st.options.values[FlagName(toks[n - 1]) := None];
    } else {
      assert st.optionName == None;
      assert Parsed(toks).1 == st.options;
    }
  }

  /** No flag is ever among the positionals. */
  lemma {:induction false} PositionalsAreNotFlags(toks: seq<string>, j: nat)
    requires j <= |toks|
    ensures forall x :: x in PositionalsUpTo(toks, j) ==> !IsFlag(x)
  {
    if j > 0 {
      PositionalsAreNotFlags(toks, j - 1);
    }
  }

  /** Every positional token of the result is a non-flag, and none is a flag's value. */
  lemma {:induction false} ParsedArgumentsAreNotFlags(toks: seq<string>)
    ensures forall x :: x in Parsed(toks).0 ==> !IsFlag(x)
  {
    ParsedMatchesReference(toks);
    PositionalsAreNotFlags(toks, |toks|);
  }

  /** A flag without a newline names the rest of the token. */
  lemma {:induction false} FlagNameWithoutNewline(tok: string)
    requires IsFlag(tok) && '\n' !in tok
    ensures FlagName(tok) == tok[1..]
  {
    assert '\n' !in tok[1..];
  }

  /** A key is an option exactly when some flag opens it. */
  lemma {:induction false} OptionsUpToKeys(toks: seq<string>, j: nat, k: string)
    requires j <= |toks|
    ensures k in OptionsUpTo(toks, j) <==> exists i :: 0 <= i < j && IsFlag(toks[i]) && FlagName(toks[i]) == k
  {
    if j > 0 {
      OptionsUpToKeys(toks, j - 1, k);
    }
  }

  /** The names the flags among the first `j` tokens open, each once, in order of first appearance. */
  function FlagNamesUpTo(toks: seq<string>, j: nat): seq<string>
    requires j <= |toks|
  {
    if j == 0 then []
    else
      var before := FlagNamesUpTo(toks, j - 1);
      if IsFlag(toks[j - 1]) && FlagName(toks[j - 1]) !in before then before + [FlagName(toks[j - 1])] else before
  }

  /**
   * The tokenizer's dict holds its keys in the order their flags first
   * appear; the option still open after a flag is not yet among them.
   */
  lemma {:induction false} ScanKeysInOrder(toks: seq<string>, j: nat)
    requires j <= |toks|
    ensures j > 0 && IsFlag(toks[j - 1]) ==> Scan(toks[..j]).options.keys == FlagNamesUpTo(toks, j - 1)
    ensures !(j > 0 && IsFlag(toks[j - 1])) ==> Scan(toks[..j]).options.keys == FlagNamesUpTo(toks, j)
  {
    if j > 0 {
      ScanKeysInOrder(toks, j - 1);
      ScanMatchesReference(toks, j - 1);
      ScanValid(toks[..j - 1]);
      assert toks[..j][..j - 1] == toks[..j - 1];
      assert Last(toks[..j]) == toks[j - 1];
    }
  }

  /** `parse_arguments` returns the option keys in the order their flags first appear. */
  lemma {:induction false} ParsedKeysInOrder(toks: seq<string>)
    ensures Parsed(toks).1.keys == FlagNamesUpTo(toks, |toks|)
  {
    var n := |toks|;
    ScanKeysInOrder(toks, n);
    ScanMatchesReference(toks, n);
    ScanValid(toks);
    assert toks[..n] == toks;
  }

  /** The value of an option is the one its last flag took. */
  lemma {:induction false} OptionsUpToLast(toks: seq<string>, j: nat, i: nat)
    requires i < j <= |toks| && IsFlag(toks[i])
    requires forall m :: i < m < j && IsFlag(toks[m]) ==> FlagName(toks[m]) != FlagName(toks[i])
    ensures FlagName(toks[i]) in OptionsUpTo(toks, j)
    ensures OptionsUpTo(toks, j)[FlagName(toks[i])] == OptionValueAt(toks, i)
  {
    if j > i + 1 {
      OptionsUpToLast(toks, j - 1, i);
    }
  }

  /**
   * The options `parse_arguments` returns: a key is present exactly when a
   * flag opens it, and the last such flag decides its value, which is the
   * following token, or `None` when the input ends or another flag follows.
   */
  lemma {:induction false} ParsedOptionValue(toks: seq<string>, i: nat)
    requires i < |toks| && IsFlag(toks[i])
    requires forall m :: i < m < |toks| && IsFlag(toks[m]) ==> FlagName(toks[m]) != FlagName(toks[i])
    ensures FlagName(toks[i]) in Parsed(toks).1.values
    ensures Parsed(toks).1.values[FlagName(toks[i])] ==
      if i + 1 < |toks| && !IsFlag(toks[i + 1]) then Some(toks[i + 1]) else None
  {
    ParsedMatchesReference(toks);
    OptionsUpToLast(toks, |toks|, i);
  }

  /** Only names opened by a flag become options. */
  lemma {:induction false} ParsedOptionKeys(toks: seq<string>, k: string)
    ensures k in Parsed(toks).1.values <==> exists i :: 0 <= i < |toks| && IsFlag(toks[i]) && FlagName(toks[i]) == k
  {
    ParsedMatchesReference(toks);
    OptionsUpToKeys(toks, |toks|, k);
  }

  /** A dash followed by a digit is not a flag: `-5` after a flag is that flag's value. */
  lemma {:induction false} DashDigitIsValue()
    ensures !IsFlag("-5")
    ensures Parsed(["-x", "-5"]).0 == []
    ensures Parsed(["-x", "-5"]).1.values == map["x" := Some("-5")]
    ensures Parsed(["-5"]).0 == ["-5"]
  {
    var toks := ["-x", "-5"];
    ParsedMatchesReference(toks);
    ParsedMatchesReference(["-5"]);
    assert IsFlag(toks[0]) && !IsFlag(toks[1]);
    assert FlagName(toks[0]) == "x" by {
      assert toks[0][1..] == "x";
    }
    assert OptionsUpTo(toks, 1) == map["x" := Some("-5")];
  }

  // ===========================================================================
  // check_args

  /** The binding loop over positionals: the `idx`-th goes to the `idx`-th name, the rest to `unnamed`. */
  function BindPositionals(names: seq<(string, ArgType)>, arguments: seq<string>, idx: nat,
                           named: map<string, Value>, unnamed: seq<string>): Result<(map<string, Value>, seq<string>), TclError>
    decreases |arguments| - idx
  {
    if idx >= |arguments| then Success((named, unnamed))
    else if idx < |names| then
      match Coerce(names[idx].1, arguments[idx])
      case None => Failure(CastNamedFailed(names[idx].0))
      case Some(v) => BindPositionals(names, arguments, idx + 1, named[names[idx].0 := v], unnamed)
    else BindPositionals(names, arguments, idx + 1, named, unnamed + [arguments[idx]])
  }

  /** An option key the command accepts: a declared option or the reserved `timeout`. */
  predicate KnownOption(d: Descriptor, key: string)
  {
    key in d.optionTypes || key == "timeout"
  }

  /**
   * The value an accepted option key is bound to: `timeout` always through
   * `int` (so a valueless `-timeout` fails), any other `None` unchanged, any
   * other value through the option's type. `None` when the coercion raises.
   */
  function CoerceOption(d: Descriptor, key: string, raw: Option<string>): (v: Option<Value>)
    requires KnownOption(d, key)
    ensures key == "timeout" ==> (v.Some? <==> raw.Some? && ParseInt(raw.value).Some?)
    ensures key == "timeout" && v.Some? ==> v.value == Int(ParseInt(raw.value).value)
    ensures key != "timeout" && raw.None? ==> v == Some(NoneValue)
    ensures key != "timeout" && raw.Some? ==> v == Coerce(d.optionTypes[key], raw.value)
  {
    if key != "timeout" then
      if raw.Some? then Coerce(d.optionTypes[key], raw.value) else Some(NoneValue)
    else if raw.Some? then Coerce(IntType, raw.value)
    else None
  }

  /** The binding loop over options, in the dict's key order. */
  function BindOptions(d: Descriptor, options: OptionDict, j: nat, named: map<string, Value>): Result<map<string, Value>, TclError>
    decreases |options.keys| - j
  {
    if j >= |options.keys| then Success(named)
    else
      var key := options.keys[j];
      if !KnownOption(d, key) then Failure(UnknownParameter(key))
      else
        match CoerceOption(d, key, Lookup(options, key))
        case None => Failure(CastOptionFailed(key))
        case Some(v) => BindOptions(d, options, j + 1, named[key := v])
  }

  /** The first required key that is not bound, if any. */
  function FirstMissing(required: seq<string>, named: map<string, Value>): (missing: Option<string>)
    ensures missing.None? <==> forall k :: k in required ==> k in named
    ensures missing.Some? ==> missing.value in required && missing.value !in named
    ensures missing.Some? ==>
      (exists j :: 0 <= j < |required| && required[j] == missing.value && (forall i :: 0 <= i < j ==> required[i] in named))
  {
    if required == [] then None
    else if required[0] !in named then Some(required[0])
    else
      var rest := FirstMissing(required[1..], named);
      assert rest.Some? ==>
        (exists j :: 1 <= j < |required| && required[j] == rest.value && (forall i :: 0 <= i < j ==> required[i] in named)) by {
        if rest.Some? {
          var j :| 0 <= j < |required[1..]| && required[1..][j] == rest.value &&
            (forall i :: 0 <= i < j ==> required[1..][i] in named);
          assert required[j + 1] == rest.value;
          forall i | 0 <= i < j + 1 ensures required[i] in named {
            if i > 0 {
              assert required[i] == required[1..][i - 1];
            }
          }
        }
      }
      rest
  }

  /** `check_args(args)`: positionals first, then options, then the required keys. */
  function Checked(d: Descriptor, args: seq<string>): Result<Typed, TclError>
  {
    var parsed := Parsed(args);
    match BindPositionals(d.argNames, parsed.0, 0, map[], [])
    case Failure(e) => Failure(e)
    case Success(bound) =>
      match BindOptions(d, parsed.1, 0, bound.0)
      case Failure(e) => Failure(e)
      case Success(named) =>
        match FirstMissing(d.required, named)
        case Some(k) => Failure(MissingRequired(k))
        case None => Success(Typed(named, bound.1))
  }

  /**
   * The validator with the three loops of the source, each raising on its
   * first failure; a failing option cast always reports the cast error (the
   * corrected behaviour, see `CheckedAsWritten` for the code as written).
   */
  method CheckArgs(d: Descriptor, args: seq<string>) returns (r: Result<Typed, TclError>)
    ensures r == Checked(d, args)
    ensures r.Success? ==> forall k :: k in d.required ==> k in r.value.named
  {
    var arguments, options := ParseArguments(args);
    var named: map<string, Value> := map[];
    var unnamed: seq<string> := [];

    // check arguments
    var idx := 0;
    while idx < |arguments|
      invariant idx <= |arguments|
      invariant BindPositionals(d.argNames, arguments, 0, map[], []) ==
                BindPositionals(d.argNames, arguments, idx, named, unnamed)
    {
      if idx < |d.argNames| {
        var key := d.argNames[idx].0;
        var v := Coerce(d.argNames[idx].1, arguments[idx]);
        if v.None? {
          return Failure(CastNamedFailed(key));
        }
        named := named[key := v.value];
      } else {
        unnamed := unnamed + [arguments[idx]];
      }
      idx := idx + 1;
    }

    // check options
    ghost var positional := named;
    var j := 0;
    while j < |options.keys|
      invariant j <= |options.keys|
      invariant BindOptions(d, options, 0, positional) == BindOptions(d, options, j, named)
    {
      var key := options.keys[j];
      if !KnownOption(d, key) {
        return Failure(UnknownParameter(key));
      }
      var v := CoerceOption(d, key, Lookup(options, key));
      if v.None? {
        return Failure(CastOptionFailed(key));
      }
      named := named[key := v.value];
      j := j + 1;
    }

    // check required arguments
    for i := 0 to |d.required|
      invariant forall m :: 0 <= m < i ==> d.required[m] in named
      invariant FirstMissing(d.required, named) == FirstMissing(d.required[i..], named)
    {
      assert d.required[i..][1..] == d.required[i + 1..];
      if d.required[i] !in named {
        return Failure(MissingRequired(d.required[i]));
      }
    }
    assert d.required[|d.required|..] == [];
    r := Success(Typed(named, unnamed));
  }

  // --- what check_args guarantees --------------------------------------------

  /** The positionals past the declared names, in order (empty when there are none). */
  function Overflow(arguments: seq<string>, from: nat): seq<string>
  {
    if from < |arguments| then arguments[from..] else []
  }

  /** The positional loop fails exactly when one of the casts it makes fails. */
  lemma {:induction false} BindPositionalsSucceeds(names: seq<(string, ArgType)>, arguments: seq<string>, idx: nat,
                                                   named: map<string, Value>, unnamed: seq<string>)
    ensures BindPositionals(names, arguments, idx, named, unnamed).Success? <==>
      forall j :: idx <= j < |names| && j < |arguments| ==> Coerce(names[j].1, arguments[j]).Some?
    decreases |arguments| - idx
  {
    if idx < |arguments| {
      if idx < |names| {
        var v := Coerce(names[idx].1, arguments[idx]);
        if v.Some? {
          BindPositionalsSucceeds(names, arguments, idx + 1, named[names[idx].0 := v.value], unnamed);
        }
      } else {
        BindPositionalsSucceeds(names, arguments, idx + 1, named, unnamed + [arguments[idx]]);
      }
    }
  }

  /** The positionals past the declared names go to `unnamed`, in order. */
  lemma {:induction false} BindPositionalsUnnamed(names: seq<(string, ArgType)>, arguments: seq<string>, idx: nat,
                                                  named: map<string, Value>, unnamed: seq<string>)
    ensures var r := BindPositionals(names, arguments, idx, named, unnamed);
      r.Success? ==> r.value.1 == unnamed + Overflow(arguments, if idx < |names| then |names| else idx)
    decreases |arguments| - idx
  {
    if idx < |arguments| {
      if idx < |names| {
        var v := Coerce(names[idx].1, arguments[idx]);
        if v.Some? {
          BindPositionalsUnnamed(names, arguments, idx + 1, named[names[idx].0 := v.value], unnamed);
        }
      } else {
        BindPositionalsUnnamed(names, arguments, idx + 1, named, unnamed + [arguments[idx]]);
        assert arguments[idx..] == [arguments[idx]] + arguments[idx + 1..];
      }
    }
  }

  /**
   * The `j`-th positional is bound, coerced, under the `j`-th name for every
   * `j` below both lengths; every other key keeps its value, and no other key
   * is added.
   */
  lemma {:induction false} BindPositionalsNamed(names: seq<(string, ArgType)>, arguments: seq<string>, idx: nat,
                                                named: map<string, Value>, unnamed: seq<string>)
    requires DistinctNames(names)
    ensures var r := BindPositionals(names, arguments, idx, named, unnamed);
      r.Success? ==>
        && (forall j :: idx <= j < |names| && j < |arguments| ==>
              names[j].0 in r.value.0 && Some(r.value.0[names[j].0]) == Coerce(names[j].1, arguments[j]))
        && (forall k :: k in named && (forall j :: idx <= j < |names| && j < |arguments| ==> names[j].0 != k) ==>
              k in r.value.0 && r.value.0[k] == named[k])
        && (forall k :: k in r.value.0 ==> k in named || exists j :: idx <= j < |names| && j < |arguments| && names[j].0 == k)
    decreases |arguments| - idx
  {
    if idx < |arguments| {
      if idx < |names| {
        var v := Coerce(names[idx].1, arguments[idx]);
        if v.Some? {
          BindPositionalsNamed(names, arguments, idx + 1, named[names[idx].0 := v.value], unnamed);
        }
      } else {
        BindPositionalsNamed(names, arguments, idx + 1, named, unnamed + [arguments[idx]]);
      }
    }
  }

  /**
   * The option loop fails exactly when some key is unknown or its value does
   * not coerce, reporting one of those two errors; on success each key holds
   * its coerced value and every other key is left as it was.
   */
  lemma {:induction false} BindOptionsSpec(d: Descriptor, options: OptionDict, j: nat, named: map<string, Value>)
    requires j <= |options.keys| && NoDuplicates(options.keys)
    ensures var r := BindOptions(d, options, j, named);
      && (r.Success? <==> forall m :: j <= m < |options.keys| ==>
            KnownOption(d, options.keys[m]) && CoerceOption(d, options.keys[m], Lookup(options, options.keys[m])).Some?)
      && (r.Failure? ==> r.error.UnknownParameter? || r.error.CastOptionFailed?)
      && (r.Success? ==>
            && (forall m :: j <= m < |options.keys| ==>
                  options.keys[m] in r.value &&
                  Some(r.value[options.keys[m]]) == CoerceOption(d, options.keys[m], Lookup(options, options.keys[m])))
            && (forall k :: k !in options.keys[j..] ==> (k in r.value <==> k in named))
            && (forall k :: k !in options.keys[j..] && k in named ==> r.value[k] == named[k]))
    decreases |options.keys| - j
  {
    if j < |options.keys| {
      var key := options.keys[j];
      if KnownOption(d, key) {
        var v := CoerceOption(d, key, Lookup(options, key));
        if v.Some? {
          BindOptionsSpec(d, options, j + 1, named[key := v.value]);
          assert options.keys[j..] == [key] + options.keys[j + 1..];
        }
      }
    }
  }

  /** On success every required key is bound; a missing one is reported by name. */
  lemma {:induction false} CheckedRequired(d: Descriptor, args: seq<string>)
    ensures Checked(d, args).Success? ==> forall k :: k in d.required ==> k in Checked(d, args).value.named
    ensures Checked(d, args).Failure? && Checked(d, args).error.MissingRequired? ==>
      Checked(d, args).error.key in d.required
  {
    var parsed := Parsed(args);
    ParsedValid(args);
    var bound := BindPositionals(d.argNames, parsed.0, 0, map[], []);
    if bound.Success? {
      var named := BindOptions(d, parsed.1, 0, bound.value.0);
      if named.Success? {
        var missing := FirstMissing(d.required, named.value);
        if missing.Some? {
          assert Checked(d, args) == Failure(MissingRequired(missing.value));
        }
      } else {
        BindOptionsSpec(d, parsed.1, 0, bound.value.0);
        assert Checked(d, args) == Failure(named.error);
      }
    } else {
      BindPositionalsFailure(d.argNames, parsed.0, 0, map[], []);
      assert Checked(d, args) == Failure(bound.error);
    }
  }

  /** An option that is neither declared nor `timeout` makes the command fail before the required check. */
  lemma {:induction false} UnknownOptionRejected(d: Descriptor, args: seq<string>, k: string)
    requires k in Parsed(args).1.values && !KnownOption(d, k)
    ensures Checked(d, args).Failure?
    ensures !Checked(d, args).error.MissingRequired?
  {
    var parsed := Parsed(args);
    ParsedValid(args);
    var bound := BindPositionals(d.argNames, parsed.0, 0, map[], []);
    if bound.Success? {
      var m :| 0 <= m < |parsed.1.keys| && parsed.1.keys[m] == k;
      BindOptionsSpec(d, parsed.1, 0, bound.value.0);
    } else {
      assert Checked(d, args) == Failure(bound.error);
      assert bound.error.CastNamedFailed? by {
        if !bound.error.CastNamedFailed? {
          BindPositionalsFailure(d.argNames, parsed.0, 0, map[], []);
        }
      }
    }
  }

  /**
   * The option loop reports the first key that fails, in the dict's key
   * order: "unknown parameter" when it is not accepted, a cast error when
   * its value does not coerce.
   */
  lemma {:induction false} BindOptionsFirstFailure(d: Descriptor, options: OptionDict, j: nat, named: map<string, Value>, m: nat)
    requires j <= m < |options.keys|
    requires forall i :: j <= i < m ==>
      KnownOption(d, options.keys[i]) && CoerceOption(d, options.keys[i], Lookup(options, options.keys[i])).Some?
    ensures !KnownOption(d, options.keys[m]) ==>
      BindOptions(d, options, j, named) == Failure(UnknownParameter(options.keys[m]))
    ensures KnownOption(d, options.keys[m]) && CoerceOption(d, options.keys[m], Lookup(options, options.keys[m])).None? ==>
      BindOptions(d, options, j, named) == Failure(CastOptionFailed(options.keys[m]))
    decreases m - j
  {
    if j < m {
      var key := options.keys[j];
      var v := CoerceOption(d, key, Lookup(options, key));
      BindOptionsFirstFailure(d, options, j + 1, named[key := v.value], m);
    }
  }

  /**
   * When the positionals bind and every option before the `m`-th is accepted
   * and casts, an undeclared `m`-th option other than `timeout` is reported
   * as "unknown parameter", naming it.
   */
  lemma {:induction false} UnknownOptionReported(d: Descriptor, args: seq<string>, m: nat)
    requires BindPositionals(d.argNames, Parsed(args).0, 0, map[], []).Success?
    requires m < |Parsed(args).1.keys| && !KnownOption(d, Parsed(args).1.keys[m])
    requires forall i :: 0 <= i < m ==>
      KnownOption(d, Parsed(args).1.keys[i]) &&
      CoerceOption(d, Parsed(args).1.keys[i], Lookup(Parsed(args).1, Parsed(args).1.keys[i])).Some?
    ensures Checked(d, args) == Failure(UnknownParameter(Parsed(args).1.keys[m]))
  {
    var parsed := Parsed(args);
    var bound := BindPositionals(d.argNames, parsed.0, 0, map[], []);
    BindOptionsFirstFailure(d, parsed.1, 0, bound.value.0, m);
  }

  /**
   * When the positionals bind and every option before the `m`-th is accepted
   * and casts, an accepted `m`-th option whose value does not coerce is
   * reported, in the corrected validator, as a cast error naming it.
   */
  lemma {:induction false} OptionCastReported(d: Descriptor, args: seq<string>, m: nat)
    requires BindPositionals(d.argNames, Parsed(args).0, 0, map[], []).Success?
    requires m < |Parsed(args).1.keys| && KnownOption(d, Parsed(args).1.keys[m])
    requires CoerceOption(d, Parsed(args).1.keys[m], Lookup(Parsed(args).1, Parsed(args).1.keys[m])).None?
    requires forall i :: 0 <= i < m ==>
      KnownOption(d, Parsed(args).1.keys[i]) &&
      CoerceOption(d, Parsed(args).1.keys[i], Lookup(Parsed(args).1, Parsed(args).1.keys[i])).Some?
    ensures Checked(d, args) == Failure(CastOptionFailed(Parsed(args).1.keys[m]))
  {
    var parsed := Parsed(args);
    var bound := BindPositionals(d.argNames, parsed.0, 0, map[], []);
    BindOptionsFirstFailure(d, parsed.1, 0, bound.value.0, m);
  }

  /** A failing positional loop reports a positional cast. */
  lemma {:induction false} BindPositionalsFailure(names: seq<(string, ArgType)>, arguments: seq<string>, idx: nat,
                                                  named: map<string, Value>, unnamed: seq<string>)
    ensures var r := BindPositionals(names, arguments, idx, named, unnamed);
      r.Failure? ==> r.error.CastNamedFailed?
    decreases |arguments| - idx
  {
    if idx < |arguments| {
      if idx < |names| {
        var v := Coerce(names[idx].1, arguments[idx]);
        if v.Some? {
          BindPositionalsFailure(names, arguments, idx + 1, named[names[idx].0 := v.value], unnamed);
        }
      } else {
        BindPositionalsFailure(names, arguments, idx + 1, named, unnamed + [arguments[idx]]);
      }
    }
  }

  /** A `-timeout` flag without a value makes the command fail: `int(None)` raises. */
  lemma {:induction false} TimeoutWithoutValueFails(d: Descriptor, args: seq<string>)
    requires "timeout" in Parsed(args).1.values && Parsed(args).1.values["timeout"] == None
    ensures Checked(d, args).Failure?
  {
    var parsed := Parsed(args);
    ParsedValid(args);
    var bound := BindPositionals(d.argNames, parsed.0, 0, map[], []);
    if bound.Success? {
      var m :| 0 <= m < |parsed.1.keys| && parsed.1.keys[m] == "timeout";
      BindOptionsSpec(d, parsed.1, 0, bound.value.0);
    }
  }

  /**
   * On success the `i`-th positional is bound, coerced, under the `i`-th
   * declared name (unless an option of that name overrides it), and the
   * positionals past the declared names are `unnamed`, in order.
   */
  lemma {:induction false} CheckedPositionals(d: Descriptor, args: seq<string>)
    requires DistinctNames(d.argNames)
    requires Checked(d, args).Success?
    ensures var arguments, t := Parsed(args).0, Checked(d, args).value;
      && t.unnamed == Overflow(arguments, |d.argNames|)
      && |t.unnamed| == (if |arguments| > |d.argNames| then |arguments| - |d.argNames| else 0)
      && forall i :: 0 <= i < |d.argNames| && i < |arguments| && d.argNames[i].0 !in Parsed(args).1.values ==>
           d.argNames[i].0 in t.named && Some(t.named[d.argNames[i].0]) == Coerce(d.argNames[i].1, arguments[i])
  {
    var parsed := Parsed(args);
    ParsedValid(args);
    BindPositionalsUnnamed(d.argNames, parsed.0, 0, map[], []);
    BindPositionalsNamed(d.argNames, parsed.0, 0, map[], []);
    var bound := BindPositionals(d.argNames, parsed.0, 0, map[], []).value;
    BindOptionsSpec(d, parsed.1, 0, bound.0);
    assert parsed.1.keys[0..] == parsed.1.keys;
  }

  /**
   * On success every option key is bound to its coerced value: `timeout` to
   * an `Int`, a valueless declared option to `NoneValue`, any other through
   * its declared type.
   */
  lemma {:induction false} CheckedOptions(d: Descriptor, args: seq<string>, k: string)
    requires Checked(d, args).Success?
    requires k in Parsed(args).1.values
    ensures KnownOption(d, k)
    ensures k in Checked(d, args).value.named
    ensures Some(Checked(d, args).value.named[k]) == CoerceOption(d, k, Parsed(args).1.values[k])
  {
    var parsed := Parsed(args);
    ParsedValid(args);
    var bound := BindPositionals(d.argNames, parsed.0, 0, map[], []).value;
    BindOptionsSpec(d, parsed.1, 0, bound.0);
    var m :| 0 <= m < |parsed.1.keys| && parsed.1.keys[m] == k;
  }

  // ===========================================================================
  // The option-cast error handler (lines 245-247), as written

  /**
   * The error the handler actually raises: it formats its message with
   * `option_types[key]`, which for an undeclared `timeout` raises `KeyError`.
   */
  function CastErrorAsWritten(d: Descriptor, e: TclError): TclError
  {
    if e.CastOptionFailed? && e.key !in d.optionTypes then OptionTypeLookupFailed(e.key) else e
  }

  /** `check_args` as written: the same, but with the handler's `KeyError`. */
  function CheckedAsWritten(d: Descriptor, args: seq<string>): (r: Result<Typed, TclError>)
    ensures r.Success? <==> Checked(d, args).Success?
    ensures r.Success? ==> r == Checked(d, args)
    ensures r.Failure? && !r.error.OptionTypeLookupFailed? ==> r == Checked(d, args)
  {
    match Checked(d, args)
    case Failure(e) => Failure(CastErrorAsWritten(d, e))
    case Success(t) => Success(t)
  }

  /**
   * `-timeout <value>` with a value `int` rejects (`-timeout soon`, say) on a
   * command that does not declare `timeout`: as written, the source raises
   * `KeyError: 'timeout'` instead of its cast message; the corrected
   * validator reports the cast failure of `-timeout`.
   */
  lemma {:induction false} TimeoutCastFailureAsWritten(d: Descriptor, value: string)
    requires "timeout" !in d.optionTypes
    requires !IsFlag(value) && ParseInt(value).None?
    ensures CheckedAsWritten(d, ["-timeout", value]) == Failure(OptionTypeLookupFailed("timeout"))
    ensures Checked(d, ["-timeout", value]) == Failure(CastOptionFailed("timeout"))
  {
    var dict := OptionDict(["timeout"], map["timeout" := Some(value)]);
    ParsedFlagValue("-timeout", value);
    assert "-timeout"[1..] == "timeout";
    assert BindPositionals(d.argNames, [], 0, map[], []) == Success((map[], []));
    assert CoerceOption(d, "timeout", Lookup(dict, "timeout")) == None;
    assert BindOptions(d, dict, 0, map[]) == Failure(CastOptionFailed("timeout"));
  }

  /** `soon` is no integer, so `-timeout soon` exhibits the handler's `KeyError`. */
  lemma TimeoutSoonIsNoInt()
    ensures !IsFlag("soon") && ParseInt("soon").None?
  {
    assert !IsDigit("soon"[0]);
  }

  /** A flag followed by a value: no positionals, one option holding the value. */
  lemma {:induction false} ParsedFlagValue(flag: string, value: string)
    requires IsFlag(flag) && '\n' !in flag && !IsFlag(value)
    ensures Parsed([flag, value]) == ([], OptionDict([flag[1..]], map[flag[1..] := Some(value)]))
  {
    assert Scan([]) == Start;
    ScanOpensOption([], flag);
    assert [] + [flag] == [flag];
    ScanOptionValue([flag], value);
    assert [flag] + [value] == [flag, value];
    assert EmptyDict.keys + [flag[1..]] == [flag[1..]];
  }

  /** A positional followed by a flag and its value: one positional, one option holding the value. */
  lemma {:induction false} ScanArgAndOption(arg: string, flag: string, value: string)
    requires !IsFlag(arg) && IsFlag(flag) && '\n' !in flag && !IsFlag(value)
    ensures Scan([arg, flag, value]) == ParseState([arg], OptionDict([flag[1..]], map[flag[1..] := Some(value)]), None)
  {
    assert Scan([]) == Start;
    ScanPositional([], arg);
    assert [] + [arg] == [arg];
    ScanOpensOption([arg], flag);
    ScanOptionValue([arg] + [flag], value);
    assert [arg] + [flag] + [value] == [arg, flag, value];
    assert EmptyDict.keys + [flag[1..]] == [flag[1..]];
  }

  /**
   * A positional followed by two flags of different names, each with a
   * value: one positional, and the two options in the order of their flags.
   */
  lemma {:induction false} ParsedArgAndTwoOptions(arg: string, flag1: string, value1: string, flag2: string, value2: string)
    requires !IsFlag(arg) && !IsFlag(value1) && !IsFlag(value2)
    requires IsFlag(flag1) && '\n' !in flag1 && IsFlag(flag2) && '\n' !in flag2
    requires flag1[1..] != flag2[1..]
    ensures Parsed([arg, flag1, value1, flag2, value2]) ==
      ([arg], OptionDict([flag1[1..], flag2[1..]], map[flag1[1..] := Some(value1), flag2[1..] := Some(value2)]))
  {
    var k1, k2 := flag1[1..], flag2[1..];
    var t3 := [arg, flag1, value1];
    var t4 := t3 + [flag2];
    var toks := t4 + [value2];
    var one := OptionDict([k1], map[k1 := Some(value1)]);
    ScanArgAndOption(arg, flag1, value1);
    ScanOpensOption(t3, flag2);
    ScanOptionValue(t4, value2);
    assert toks == [arg, flag1, value1, flag2, value2];
    assert k2 !in one.values;
    assert one.keys + [k2] == [k1, k2];
  }

  /** In the corrected validator an option whose value does not coerce makes validation fail with an option error. */
  lemma {:induction false} OptionCastFailureFails(d: Descriptor, args: seq<string>, k: string)
    requires k in Parsed(args).1.values && KnownOption(d, k)
    requires CoerceOption(d, k, Parsed(args).1.values[k]).None?
    requires BindPositionals(d.argNames, Parsed(args).0, 0, map[], []).Success?
    ensures Checked(d, args).Failure?
    ensures Checked(d, args).error.UnknownParameter? || Checked(d, args).error.CastOptionFailed?
  {
    var parsed := Parsed(args);
    ParsedValid(args);
    var bound := BindPositionals(d.argNames, parsed.0, 0, map[], []);
    var m :| 0 <= m < |parsed.1.keys| && parsed.1.keys[m] == k;
    BindOptionsSpec(d, parsed.1, 0, bound.value.0);
  }

  // ===========================================================================
  // get_current_command and the signalled command

  /** `get_current_command`: the first alias and then each original argument, joined by single spaces. */
  function CurrentCommand(aliases: seq<string>, originalArgs: Option<seq<string>>): string
    requires |aliases| > 0
  {
    Join([aliases[0]] + (if originalArgs.Some? then originalArgs.value else []), ' ')
  }

  /** The command line starts with the alias, and splits back into alias and arguments when none holds a space. */
  lemma {:induction false} CurrentCommandSplits(aliases: seq<string>, originalArgs: Option<seq<string>>)
    requires |aliases| > 0
    ensures var cmd := CurrentCommand(aliases, originalArgs);
      |aliases[0]| <= |cmd| && cmd[..|aliases[0]|] == aliases[0]
    ensures var words := [aliases[0]] + (if originalArgs.Some? then originalArgs.value else []);
      (forall i :: 0 <= i < |words| ==> ' ' !in words[i]) ==>
        Split(CurrentCommand(aliases, originalArgs), ' ') == words
  {
    var words := [aliases[0]] + (if originalArgs.Some? then originalArgs.value else []);
    if |words| > 1 {
      assert words[0] == aliases[0];
    }
    if forall i :: 0 <= i < |words| ==> ' ' !in words[i] {
      SplitJoin(words, ' ');
    }
  }

  /** `check_args` succeeded with a `-timeout` flag: the timeout it extracts is an `Int`. */
  lemma {:induction false} CheckedTimeoutIsInt(d: Descriptor, args: seq<string>)
    requires Checked(d, args).Success?
    requires "timeout" in Parsed(args).1.values
    ensures "timeout" in Checked(d, args).value.named
    ensures Checked(d, args).value.named["timeout"].Int?
  {
    CheckedOptions(d, args, "timeout");
  }

  /** Lines 410-414: take `timeout` out of the named arguments, or use the configured default. */
  function ExtractTimeout(named: map<string, Value>, default: Value): (r: (Value, map<string, Value>))
    ensures r.0 == if "timeout" in named then named["timeout"] else default
    ensures "timeout" !in r.1
    ensures forall k :: k in r.1 <==> k in named && k != "timeout"
    ensures forall k :: k in r.1 ==> r.1[k] == named[k]
  {
    if "timeout" in named then (named["timeout"], named - {"timeout"}) else (default, named)
  }

  /**
   * With no positional called `timeout`, the wait a validated command uses is
   * an integer: the one `-timeout` gave, or the integer default.
   */
  lemma {:induction false} PreparedTimeoutIsInt(d: Descriptor, args: seq<string>, default: int)
    requires DistinctNames(d.argNames)
    requires forall i :: 0 <= i < |d.argNames| ==> d.argNames[i].0 != "timeout"
    requires Checked(d, args).Success?
    ensures ExtractTimeout(Checked(d, args).value.named, Int(default)).0.Int?
  {
    if "timeout" in Parsed(args).1.values {
      CheckedTimeoutIsInt(d, args);
    } else {
      var parsed := Parsed(args);
      ParsedValid(args);
      var bound := BindPositionals(d.argNames, parsed.0, 0, map[], []).value;
      BindPositionalsNamed(d.argNames, parsed.0, 0, map[], []);
      BindOptionsSpec(d, parsed.1, 0, bound.0);
      assert parsed.1.keys[0..] == parsed.1.keys;
      assert "timeout" !in parsed.1.keys;
      assert "timeout" !in bound.0;
    }
  }

  /** What a signalled command hands to the worker: its arguments, the wait and the process text. */
  datatype Invocation = Invocation(named: map<string, Value>, unnamed: seq<string>, timeout: Value, commandLine: string)

  /**
   * A command whose `execute` runs on the worker (`TclCommandSignaled`): the
   * fields its `execute_wrapper` and `execute_call` set.
   */
  class SignaledCommand {
    const descriptor: Descriptor
    var originalArgs: Option<seq<string>>
    var output: Option<string>
    var error: Option<Exception>
    /** How many times `shell_command_finished` was emitted for this command. */
    var finishedSignals: nat

    constructor (descriptor: Descriptor)
      ensures this.descriptor == descriptor
      ensures originalArgs == None && output == None && error == None && finishedSignals == 0
    {
      this.descriptor := descriptor;
      originalArgs := None;
      output := None;
      error := None;
      finishedSignals := 0;
    }

    /**
     * The synchronous part of `execute_wrapper` before the wait: record the
     * arguments, validate them, take out the timeout, and build the line shown
     * while the command runs.
     */
    method Prepare(args: seq<string>, defaultTimeout: int) returns (r: Result<Invocation, TclError>)
      requires |descriptor.aliases| > 0
      modifies this`originalArgs
      ensures originalArgs == Some(args)
      ensures Checked(descriptor, args).Failure? ==> r == Failure(Checked(descriptor, args).error)
      ensures Checked(descriptor, args).Success? ==>
        var t := Checked(descriptor, args).value;
        var (timeout, named) := ExtractTimeout(t.named, Int(defaultTimeout));
        r == Success(Invocation(named, t.unnamed, timeout, CurrentCommand(descriptor.aliases, Some(args))))
    {
      originalArgs := Some(args);
      var checked := CheckArgs(descriptor, args);
      if checked.Failure? {
        return Failure(checked.error);
      }
      var named := checked.value.named;
      var timeout: Value;
      if "timeout" in named {
        timeout := named["timeout"];
        named := named - {"timeout"};
      } else {
        timeout := Int(defaultTimeout);
      }
      r := Success(Invocation(named, checked.value.unnamed, timeout, CurrentCommand(descriptor.aliases, originalArgs)));
    }

    /**
     * `execute_call`: reset the output and error, run `execute`, capture an
     * exception instead of propagating it, and emit "finished" exactly once.
     */
    method ExecuteCall(outcome: Outcome)
      modifies this`output, this`error, this`finishedSignals
      ensures finishedSignals == old(finishedSignals) + 1
      ensures outcome.Returned? ==> output == outcome.value && error == None
      ensures outcome.Raised? ==> output == None && error == Some(outcome.error)
    {
      output := None;
      error := None;
      match outcome {
        case Returned(v) =>
          output := v;
        case Raised(e) =>
          error := Some(e);
      }
      finishedSignals := finishedSignals + 1;
    }
  }
}
