/** The `MeCab` class: option normalisation and the dictionary check done when it is
    built, and `parse`, which cuts the native analyzer's output into lines and turns
    every line before the first "EOS" into a token. The native tagger is not part of
    this model: its output is a parameter of Parse, and the file system is a value. */
module Analyzer {
  import opened Wrappers
  import opened JsStrings
  import opened Tokens

  /** The option bag, when it is a plain object: each field is `Some` when it is a string
      (a field of any other type is ignored, like a missing one). */
  datatype Options = Options(engine: Option<string>, dictPath: Option<string>)

  /** Where the bundled dictionaries of the two engines are installed. */
  datatype Install = Install(jpDict: string, koDict: string)

  /** The engine and dictionary directory a MeCab object is built with. */
  datatype Config = Config(engine: Engine, dictPath: string)

  datatype ConfigError =
    | UnknownEngine(given: string)   // the engine option as given, before trimming
    | MissingDictionary(path: string)
    | IncompleteDictionary

  /** A file-system entry: the names a directory lists, or anything else. */
  datatype Entry = Directory(names: seq<string>) | OtherFile

  type FileSystem = map<string, Entry>

  function DefaultDict(install: Install, e: Engine): string {
    match e
    case JP => install.jpDict
    case KO => install.koDict
  }

  /** The engine table lookup `engineDicts[key]` as written: `engineDicts` is a plain
      object literal, so besides its own keys "jp" and "ko" it answers for the members it
      inherits from `Object.prototype`; "constructor" and "__proto__" are the only ones
      whose names are already in lower case. */
  predicate AcceptsEngineAsWritten(key: string)
    ensures TableEngine(key).Some? ==> AcceptsEngineAsWritten(key)
  {
    key == "jp" || key == "ko" || key == "constructor" || key == "__proto__"
  }

  /** The engine table as intended: only its own keys. They are the same two names as
      the engine constants `Token` compares against, so the table lookup is the engine
      check `EngineFromName` itself. */
  function TableEngine(key: string): (r: Option<Engine>)
    ensures r.Some? <==> key == "jp" || key == "ko"
    ensures r.Some? ==> EngineName(r.value) == key
  {
    EngineFromName(key)
  }

  /** The normalised engine name: trimmed, then lower-cased. It has no whitespace at
      either end and no ASCII capital, and is empty exactly when the option is all
      whitespace. */
  function NormalizeEngine(given: string): (r: string)
    ensures r == [] <==> AllWhitespace(given)
    ensures r == [] || (!IsJsWhitespace(r[0]) && !IsJsWhitespace(r[|r| - 1]))
    ensures forall i :: 0 <= i < |r| ==> !('A' <= r[i] <= 'Z')
  {
    ToLower(Trim(given))
  }

  /** The constructor up to the file-system checks: the engine option is trimmed,
      lower-cased and looked up, and sets the default dictionary too; a string
      `dictPath` is trimmed and wins over that default. */
  function Configure(opts: Option<Options>, install: Install): (r: Result<Config, ConfigError>)
    ensures opts.None? ==> r == Ok(Config(JP, install.jpDict))
    ensures opts.Some? && opts.value.engine.Some? ==>
              (r.Ok? <==> TableEngine(NormalizeEngine(opts.value.engine.value)).Some?)
    ensures opts.Some? && opts.value.engine.Some? && r.Err? ==>
              r.error == UnknownEngine(opts.value.engine.value)
    ensures opts.Some? && opts.value.engine.Some? && r.Ok? ==>
              EngineName(r.value.engine) == NormalizeEngine(opts.value.engine.value)
    ensures opts.Some? && opts.value.engine.None? ==> r.Ok? && r.value.engine == JP
    ensures opts.Some? && opts.value.dictPath.Some? && r.Ok? ==>
              r.value.dictPath == Trim(opts.value.dictPath.value)
    ensures opts.Some? && opts.value.dictPath.None? && r.Ok? ==>
              r.value.dictPath == DefaultDict(install, r.value.engine)
  {
    match opts
    case None => Ok(Config(JP, DefaultDict(install, JP)))
    case Some(o) =>
      var chosen :=
        match o.engine
        case None => Some(JP)
        case Some(given) => TableEngine(NormalizeEngine(given));
      if chosen.None? then Err(UnknownEngine(o.engine.value))
      else
        var path := match o.dictPath
          case None => DefaultDict(install, chosen.value)
          case Some(p) => Trim(p);
        Ok(Config(chosen.value, path))
  }

  /** The files a compiled dictionary directory must hold. */
  const ExpectedFiles: seq<string> := ["char.bin", "dicrc", "matrix.bin", "sys.dic", "unk.dic"]

  /** The loop over `expectedFiles`: the listing passes when it names every one of them. */
  method HasCompiledDictionary(found: seq<string>) returns (ok: bool)
    ensures ok <==> forall f :: f in ExpectedFiles ==> f in found
  {
    var i := 0;
    while i < |ExpectedFiles|
      invariant 0 <= i <= |ExpectedFiles|
      invariant forall k :: 0 <= k < i ==> ExpectedFiles[k] in found
    {
      if ExpectedFiles[i] !in found {
        return false;
      }
      i := i + 1;
    }
    return true;
  }

  class MeCab {
    const engine: Engine
    const dictPath: string

    constructor (config: Config)
      ensures engine == config.engine && dictPath == config.dictPath
    {
      engine := config.engine;
      dictPath := config.dictPath;
    }

    /** `parse`: split the output into lines and build one token per line before the
        first "EOS" line; the first line that cannot be built makes the call throw. */
    method Parse(raw: string) returns (r: Result<seq<Token>, TokenError>)
      ensures r == Collect(LineResults(engine, SplitLines(raw)))
    {
      var lines := SplitLines(raw);
      ghost var results := LineResults(engine, lines);
      var tokens: seq<Token> := [];
      var i := 0;
      assert results[i..] == results;
      PrependNothing(Collect(results));
      while i < |lines| && lines[i] != "EOS"
        invariant 0 <= i <= FirstEos(lines)
        invariant Collect(results) == Prepend(tokens, Collect(results[i..]))
      {
        var token := NewToken(EngineName(engine), lines[i]);
        assert results[i] == token;
        CollectStep(results, i, tokens);
        if token.Err? {
          return Err(token.error);
        }
        tokens := tokens + [token.value];
        i := i + 1;
      }
      assert results[i..] == [];
      assert tokens + [] == tokens;
      return Ok(tokens);
    }
  }

  /** What building a token from each line before the first "EOS" yields, in order. */
  function LineResults(e: Engine, lines: seq<string>): (rs: seq<Result<Token, TokenError>>)
    ensures |rs| == FirstEos(lines)
    ensures forall i :: 0 <= i < |rs| ==> rs[i] == NewToken(EngineName(e), lines[i])
  {
    seq(FirstEos(lines), i requires 0 <= i < FirstEos(lines) => NewToken(EngineName(e), lines[i]))
  }

  /** The tokens of `rs` in order, or the first error among them. */
  function Collect(rs: seq<Result<Token, TokenError>>): (r: Result<seq<Token>, TokenError>)
    ensures r.Ok? ==> |r.value| == |rs|
  {
    if rs == [] then Ok([])
    else
      match rs[0]
      case Err(error) => Err(error)
      case Ok(t) => Prepend([t], Collect(rs[1..]))
  }

  /** Puts `ts` in front of a successful result; an error is passed through. */
  function Prepend(ts: seq<Token>, r: Result<seq<Token>, TokenError>): Result<seq<Token>, TokenError> {
    if r.Ok? then Ok(ts + r.value) else r
  }

  lemma PrependNothing(r: Result<seq<Token>, TokenError>)
    ensures Prepend([], r) == r
  {
    if r.Ok? {
      assert [] + r.value == r.value;
    }
  }

  /** One step of collecting: the result at `i` either ends the collection with its error
      or contributes its token in front of the rest. */
  lemma CollectStep(rs: seq<Result<Token, TokenError>>, i: nat, tokens: seq<Token>)
    requires i < |rs|
    ensures Prepend(tokens, Collect(rs[i..])) ==
              if rs[i].Err? then Err(rs[i].error) else Prepend(tokens + [rs[i].value], Collect(rs[i + 1..]))
  {
    assert rs[i..][1..] == rs[i + 1..];
    var rest := Collect(rs[i + 1..]);
    if rest.Ok? && rs[i].Ok? {
      assert tokens + ([rs[i].value] + rest.value) == tokens + [rs[i].value] + rest.value;
    }
  }

  /** Collecting succeeds exactly when every result is a token, and then yields those
      tokens in order. */
  lemma {:induction false} CollectOk(rs: seq<Result<Token, TokenError>>)
    ensures Collect(rs).Ok? <==> forall i :: 0 <= i < |rs| ==> rs[i].Ok?
    ensures Collect(rs).Ok? ==>
              && |Collect(rs).value| == |rs|
              && forall i :: 0 <= i < |rs| ==> rs[i] == Ok(Collect(rs).value[i])
  {
    if rs != [] {
      CollectOk(rs[1..]);
      if rs[0].Ok? && Collect(rs[1..]).Err? {
        var k :| 0 <= k < |rs[1..]| && !rs[1..][k].Ok?;
        assert !rs[k + 1].Ok?;
      }
    }
  }

  /** When collecting fails, its error is that of the first result that is not a token. */
  lemma {:induction false} CollectErr(rs: seq<Result<Token, TokenError>>)
    requires Collect(rs).Err?
    ensures exists i ::
              && 0 <= i < |rs|
              && rs[i] == Err(Collect(rs).error)
              && forall j :: 0 <= j < i ==> rs[j].Ok?
  {
    if rs[0].Ok? {
      CollectErr(rs[1..]);
      var k :| && 0 <= k < |rs[1..]|
               && rs[1..][k] == Err(Collect(rs[1..]).error)
               && forall j :: 0 <= j < k ==> rs[1..][j].Ok?;
      assert rs[k + 1] == Err(Collect(rs).error);
      assert forall j :: 0 < j < k + 1 ==> rs[j] == rs[1..][j - 1];
    }
  }

  /** `parse` in terms of the output lines: it succeeds exactly when every line before the
      first "EOS" builds, and then yields one token per such line, in order; otherwise it
      throws the error of the first line that does not build. */
  lemma ParseOutcome(e: Engine, lines: seq<string>)
    ensures var r := Collect(LineResults(e, lines));
      && (r.Ok? <==> forall i :: 0 <= i < FirstEos(lines) ==> NewToken(EngineName(e), lines[i]).Ok?)
      && (r.Ok? ==>
            && |r.value| == FirstEos(lines)
            && forall i :: 0 <= i < FirstEos(lines) ==> NewToken(EngineName(e), lines[i]) == Ok(r.value[i]))
      && (r.Err? ==>
            exists i ::
              && 0 <= i < FirstEos(lines)
              && NewToken(EngineName(e), lines[i]) == Err(r.error)
              && forall j :: 0 <= j < i ==> NewToken(EngineName(e), lines[j]).Ok?)
  {
    var rs := LineResults(e, lines);
    CollectOk(rs);
    if Collect(rs).Err? {
      CollectErr(rs);
    }
  }

  /** Index of the first line equal to "EOS", or the number of lines when there is none. */
  function FirstEos(lines: seq<string>): (n: nat)
    ensures n <= |lines|
    ensures forall j :: 0 <= j < n ==> lines[j] != "EOS"
    ensures n < |lines| ==> lines[n] == "EOS"
  {
    if lines == [] || lines[0] == "EOS" then 0 else 1 + FirstEos(lines[1..])
  }

  /** `new MeCab(opts)`: configure, then the dictionary directory must exist and list
      every expected file; a listing that fails (the path is not a directory) reports the
      same error as a missing file. */
  method Open(opts: Option<Options>, install: Install, fs: FileSystem)
    returns (r: Result<MeCab, ConfigError>)
    ensures Configure(opts, install).Err? ==> r == Err(Configure(opts, install).error)
    ensures Configure(opts, install).Ok? ==>
              var c := Configure(opts, install).value;
              && (c.dictPath !in fs ==> r == Err(MissingDictionary(c.dictPath)))
              && (c.dictPath in fs ==>
                   (r.Ok? <==> fs[c.dictPath].Directory?
                               && forall f :: f in ExpectedFiles ==> f in fs[c.dictPath].names))
              && (c.dictPath in fs && r.Err? ==> r.error == IncompleteDictionary)
              && (r.Ok? ==> r.value.engine == c.engine && r.value.dictPath == c.dictPath)
  {
    var config := Configure(opts, install);
    if config.Err? {
      return Err(config.error);
    }
    var path := config.value.dictPath;
    if path !in fs {
      return Err(MissingDictionary(path));
    }
    match fs[path]
    case OtherFile =>
      return Err(IncompleteDictionary);
    case Directory(names) =>
      var ok := HasCompiledDictionary(names);
      if !ok {
        return Err(IncompleteDictionary);
      }
      var m := new MeCab(config.value);
      return Ok(m);
  }

  /** Every engine the constructor accepts is one `Token` accepts, so building a token for
      a parsed line can only fail for a line without a tab. */
  lemma ConfiguredEngineTokenizes(opts: Option<Options>, install: Install, line: string)
    requires Configure(opts, install).Ok?
    ensures NewToken(EngineName(Configure(opts, install).value.engine), line).Ok? <==> '\t' in line
    ensures NewToken(EngineName(Configure(opts, install).value.engine), line).Err? ==>
              NewToken(EngineName(Configure(opts, install).value.engine), line) == Err(TypeError)
  {
  }

  /** The table lookup as written differs from the intended one exactly on the two
      inherited member names. */
  lemma AsWrittenDiffersOnInherited(key: string)
    ensures AcceptsEngineAsWritten(key) <==>
              TableEngine(key).Some? || key == "constructor" || key == "__proto__"
  {
  }

  /** As written, an option that normalises to an inherited member name passes the
      engine check, yet `Token` rejects that engine, so every line such an object parses
      would throw; the intended check refuses it up front, naming the option as given. */
  lemma InheritedKeyAccepted(given: string, dictPath: Option<string>, install: Install, line: string)
    requires NormalizeEngine(given) == "constructor" || NormalizeEngine(given) == "__proto__"
    ensures AcceptsEngineAsWritten(NormalizeEngine(given))
    ensures NewToken(NormalizeEngine(given), line) == Err(UnsupportedEngine(NormalizeEngine(given)))
    ensures Configure(Some(Options(Some(given), dictPath)), install) == Err(UnknownEngine(given))
  {
    ConfigureRejects(given, dictPath, install);
  }

  /** Both inherited member names are already trimmed and in lower case, so the options
      "constructor" and "__proto__" reach the lookup unchanged. */
  lemma InheritedKeysNormalized()
    ensures NormalizeEngine("constructor") == "constructor"
    ensures NormalizeEngine("__proto__") == "__proto__"
  {
    ConstructorNormalized();
    ProtoNormalized();
  }

  lemma ConstructorNormalized()
    ensures NormalizeEngine("constructor") == "constructor"
  {
    var s := "constructor";
    assert s == ['c', 'o', 'n', 's', 't', 'r', 'u', 'c', 't', 'o', 'r'];
    assert s[0] == 'c' && s[|s| - 1] == 'r';
    TrimUntouched(s);
    forall i | 0 <= i < |s|
      ensures ToLowerChar(s[i]) == s[i]
    {
      assert 'a' <= s[i] <= 'z';
    }
    LowerUntouched(s);
  }

  lemma ProtoNormalized()
    ensures NormalizeEngine("__proto__") == "__proto__"
  {
    var s := "__proto__";
    assert s == ['_', '_', 'p', 'r', 'o', 't', 'o', '_', '_'];
    assert s[0] == '_' && s[|s| - 1] == '_';
    TrimUntouched(s);
    forall i | 0 <= i < |s|
      ensures ToLowerChar(s[i]) == s[i]
    {
      assert s[i] == '_' || 'a' <= s[i] <= 'z';
    }
    LowerUntouched(s);
  }

  /** An engine option that does not name a table entry once normalised is refused with
      the option as given. */
  lemma ConfigureRejects(given: string, dictPath: Option<string>, install: Install)
    requires TableEngine(NormalizeEngine(given)).None?
    ensures Configure(Some(Options(Some(given), dictPath)), install) == Err(UnknownEngine(given))
  {
  }

  /** Whitespace around the engine option is ignored: the padded and the bare option
      configure alike. */
  lemma EnginePaddingIgnored(p: string, w: string, q: string, dictPath: Option<string>, install: Install)
    requires AllWhitespace(p) && AllWhitespace(q)
    requires w != [] && !IsJsWhitespace(w[0]) && !IsJsWhitespace(w[|w| - 1])
    ensures Configure(Some(Options(Some(p + w + q), dictPath)), install).Ok? <==>
              Configure(Some(Options(Some(w), dictPath)), install).Ok?
    ensures Configure(Some(Options(Some(p + w + q), dictPath)), install).Ok? ==>
              Configure(Some(Options(Some(p + w + q), dictPath)), install)
                == Configure(Some(Options(Some(w), dictPath)), install)
  {
    TrimPadded(p, w, q);
    TrimUntouched(w);
  }

  /** The engine option is compared after lower-casing: "KO" selects the Korean engine. */
  lemma UpperKoSelectsKorean(install: Install)
    ensures Configure(Some(Options(Some("KO"), None)), install) == Ok(Config(KO, install.koDict))
  {
    TwoLetterEngine('K', 'O', install);
  }

  /** U+212A KELVIN SIGN lower-cases to "k", so it followed by "o" selects Korean too. */
  lemma KelvinKoSelectsKorean(install: Install)
    ensures Configure(Some(Options(Some("\U{212A}o"), None)), install) == Ok(Config(KO, install.koDict))
  {
    TwoLetterEngine('\U{212A}', 'o', install);
  }

  /** "JP" selects the Japanese engine. */
  lemma UpperJpSelectsJapanese(install: Install)
    ensures Configure(Some(Options(Some("JP"), None)), install) == Ok(Config(JP, install.jpDict))
  {
    TwoLetterEngine('J', 'P', install);
  }

  /** A two-letter engine option selects the engine its lower-cased letters name. */
  lemma TwoLetterEngine(a: char, b: char, install: Install)
    requires !IsJsWhitespace(a) && !IsJsWhitespace(b)
    requires TableEngine([ToLowerChar(a), ToLowerChar(b)]).Some?
    ensures var e := TableEngine([ToLowerChar(a), ToLowerChar(b)]).value;
      Configure(Some(Options(Some([a, b]), None)), install) == Ok(Config(e, DefaultDict(install, e)))
  {
    TrimUntouched([a, b]);
    LowerPair(a, b);
  }

  /** A `dictPath` option is trimmed and replaces the engine's bundled dictionary. */
  lemma DictPathOverrides(p: string, d: string, q: string, engine: Option<string>, install: Install)
    requires AllWhitespace(p) && AllWhitespace(q)
    requires d != [] && !IsJsWhitespace(d[0]) && !IsJsWhitespace(d[|d| - 1])
    requires Configure(Some(Options(engine, None)), install).Ok?
    ensures Configure(Some(Options(engine, Some(p + d + q))), install)
              == Ok(Config(Configure(Some(Options(engine, None)), install).value.engine, d))
  {
    TrimPadded(p, d, q);
  }

  /** On output written as the token lines, "EOS" and a final line break, the lines
      before "EOS" are exactly the token lines, in order. */
  lemma OutputLinesBeforeEos(tokenLines: seq<string>)
    requires forall i :: 0 <= i < |tokenLines| ==>
               tokenLines[i] != "" && tokenLines[i] != "EOS" && NoLineBreak(tokenLines[i])
    ensures var lines := SplitLines(Join(tokenLines + ["EOS", ""], '\n'));
      FirstEos(lines) == |tokenLines| && lines[..|tokenLines|] == tokenLines
  {
    var all := tokenLines + ["EOS", ""];
    OutputWellFormed(tokenLines);
    SplitLinesJoin(all);
    FirstEosOf(all, |tokenLines|);
    assert all[..|tokenLines|] == tokenLines;
  }

  lemma OutputWellFormed(tokenLines: seq<string>)
    requires forall i :: 0 <= i < |tokenLines| ==>
               tokenLines[i] != "" && tokenLines[i] != "EOS" && NoLineBreak(tokenLines[i])
    ensures WellFormedLines(tokenLines + ["EOS", ""])
  {
    var all := tokenLines + ["EOS", ""];
    assert NoLineBreak("EOS") && NoLineBreak("");
    forall i | 0 <= i < |all| ensures NoLineBreak(all[i]) {
      if i >= |tokenLines| {
        assert all[i] == "EOS" || all[i] == "";
      } else {
        assert all[i] == tokenLines[i];
      }
    }
    forall i | 0 < i < |all| - 1 ensures all[i] != "" {
      if i < |tokenLines| {
        assert all[i] == tokenLines[i];
      } else {
        assert all[i] == "EOS";
      }
    }
  }

  /** FirstEos finds the index of the first "EOS". */
  lemma FirstEosOf(lines: seq<string>, n: nat)
    requires n < |lines| && lines[n] == "EOS"
    requires forall j :: 0 <= j < n ==> lines[j] != "EOS"
    ensures FirstEos(lines) == n
  {
  }

  /** A run of line breaks, "\r\n" or blank lines, separates just two lines. */
  lemma BreakRunIsOneSeparator()
    ensures SplitLines("a\r\n\r\nb") == ["a", "b"]
  {
    SplitLinesJoin(["a", "b"]);
    assert Join(["a", "b"], '\n') == "a\nb";
    assert "a\r\n\r\nb"[1..] == "\r\n\r\nb" && "\r\n\r\nb"[1..] == "\n\r\nb";
    assert "\n\r\nb"[1..] == "\r\nb" && "\r\nb"[1..] == "\nb" && "a\nb"[1..] == "\nb";
  }

  /** A line break at either end yields an empty first or last line. */
  lemma EdgeBreaksGiveEmptyLines()
    ensures SplitLines("\na\n") == ["", "a", ""]
  {
    SplitLinesJoin(["", "a", ""]);
    assert Join(["", "a", ""], '\n') == "\na\n";
  }
}
