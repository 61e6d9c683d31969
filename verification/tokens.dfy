/** One line of the analyzer's output turned into a token: the surface form before the
    tab and the comma-separated feature slots after it, read through getters whose
    meaning depends on the engine ("jp" or "ko"). A token's fields are set once, when it
    is built, so tokens are values here. */
module Tokens {
  import opened Wrappers
  import opened JsStrings

  datatype Engine = JP | KO

  function EngineName(e: Engine): string {
    match e
    case JP => "jp"
    case KO => "ko"
  }

  /** The exact check `engine === JP || engine === KO`. */
  function EngineFromName(name: string): (r: Option<Engine>)
    ensures r.Some? <==> name == "jp" || name == "ko"
    ensures r.Some? ==> EngineName(r.value) == name
  {
    if name == "jp" then Some(JP) else if name == "ko" then Some(KO) else None
  }

  /** The slot value the Korean dictionary uses for "no value". */
  const EMPTY: string := "*"

  /** What a getter hands back: a value, JavaScript's `null`, or `undefined` (a read past
      the end of the feature list). */
  datatype Js<+T> = Val(value: T) | Null | Undefined

  /** Why building a token or reading a getter throws. */
  datatype TokenError =
    | UnsupportedEngine(engine: string)  // the engine is neither "jp" nor "ko"
    | TypeError                          // `.split` called on `undefined`

  /** `fields[k]`: `undefined` past the end. */
  function Slot(fields: seq<string>, k: nat): Js<string> {
    if k < |fields| then Val(fields[k]) else Undefined
  }

  /** `v !== EMPTY ? v : null`: "*" reads as `null`, `undefined` stays `undefined`. */
  function EmptyAsNull(v: Js<string>): Js<string> {
    if v == Val(EMPTY) then Null else v
  }

  /** How a getter that reads slot `k` and maps "*" to `null` must answer. */
  ghost predicate ReadsSlot(r: Js<string>, fields: seq<string>, k: nat) {
    && (k >= |fields| ==> r == Undefined)
    && (k < |fields| && fields[k] == EMPTY ==> r == Null)
    && (k < |fields| && fields[k] != EMPTY ==> r == Val(fields[k]))
  }

  lemma EmptyAsNullReadsSlot(fields: seq<string>, k: nat)
    ensures ReadsSlot(EmptyAsNull(Slot(fields, k)), fields, k)
  {
  }

  /** One "+"-separated part of the Korean expression slot: morpheme, POS and semantic
      class separated by "/". */
  datatype ExpressionToken = ExpressionToken(fields: seq<string>) {

    /** What every built expression token satisfies: its fields are the "/"-split of its
        part, so there is at least one and none holds "/". */
    ghost predicate Valid() {
      && fields != []
      && forall i :: 0 <= i < |fields| ==> '/' !in fields[i]
    }

    /** `#features[0]`: the part of the text before the first "/". */
    function Morpheme(): (r: string)
      requires Valid()
      ensures FieldBefore(r, Text(), '/')
    {
      fields[0]
    }

    function Pos(): (r: Js<string>)
      ensures 1 < |fields| ==> r == Val(fields[1])
      ensures |fields| <= 1 ==> r == Undefined
    {
      Slot(fields, 1)
    }

    function SemanticClass(): (r: Js<string>)
      ensures ReadsSlot(r, fields, 2)
    {
      EmptyAsNull(Slot(fields, 2))
    }

    /** The text the token was built from. */
    function Text(): string {
      Join(fields, '/')
    }
  }

  /** `new ExpressionToken(raw)`. */
  function NewExpressionToken(raw: string): (e: ExpressionToken)
    ensures e.Valid() && e.Text() == raw
    ensures |e.fields| == Count(raw, '/') + 1
    ensures e.Morpheme() == Split(raw, '/')[0] && FieldBefore(e.Morpheme(), raw, '/')
  {
    JoinSplit(raw, '/');
    ExpressionToken(Split(raw, '/'))
  }

  /** `parts.map(part => new ExpressionToken(part))`. */
  function NewExpressionTokens(parts: seq<string>): (es: seq<ExpressionToken>)
    ensures |es| == |parts|
    ensures forall i :: 0 <= i < |es| ==> es[i] == NewExpressionToken(parts[i])
    ensures forall i :: 0 <= i < |es| ==> es[i].Valid() && es[i].Text() == parts[i]
  {
    seq(|parts|, i requires 0 <= i < |parts| => NewExpressionToken(parts[i]))
  }

  /** A valid expression token is the one its text builds: the fields of a part are
      determined by it. */
  lemma ExpressionTokenOfText(e: ExpressionToken)
    requires e.Valid()
    ensures NewExpressionToken(e.Text()) == e
  {
    SplitJoin(e.fields, '/');
  }

  /** The POS field of a part is `undefined` exactly when the part holds no "/". */
  lemma ExpressionPosOfPart(raw: string)
    ensures NewExpressionToken(raw).Pos() == Undefined <==> '/' !in raw
    ensures '/' in raw ==> NewExpressionToken(raw).Pos() == Val(Split(raw, '/')[1])
  {
    CountZero(raw, '/');
  }

  /** The texts of expression tokens. */
  function Texts(es: seq<ExpressionToken>): (ts: seq<string>)
    ensures |ts| == |es| && forall i :: 0 <= i < |es| ==> ts[i] == es[i].Text()
  {
    seq(|es|, i requires 0 <= i < |es| => es[i].Text())
  }

  datatype Token = Token(engine: Engine, surface: string, features: seq<string>) {

    /** What every built token satisfies: `split` never returns an empty list. */
    ghost predicate Valid() {
      features != []
    }

    /** True when slot `k` exists and holds "*"; a missing slot is not "*". */
    predicate IsEmptySlot(k: nat) {
      Slot(features, k) == Val(EMPTY)
    }

    /** Dictionary form: for "ko", the surface, unless slots 4 and 7 are both not "*", in
        which case the part of slot 7 before the first "/"; `null` for "jp". */
    function Base(): (r: Result<Js<string>, TokenError>)
      ensures engine == JP ==> r == Ok(Null)
      ensures engine == KO && (IsEmptySlot(4) || IsEmptySlot(7)) ==> r == Ok(Val(surface))
      ensures engine == KO && !IsEmptySlot(4) && |features| <= 7 ==> r == Err(TypeError)
      ensures engine == KO && !IsEmptySlot(4) && !IsEmptySlot(7) && 7 < |features| ==>
                r.Ok? && r.value.Val? && FieldBefore(r.value.value, features[7], '/')
    {
      if engine == KO then
        if Slot(features, 4) != Val(EMPTY) && Slot(features, 7) != Val(EMPTY) then
          if 7 < |features| then Ok(Val(Split(features[7], '/')[0])) else Err(TypeError)
        else Ok(Val(surface))
      else Ok(Null)
    }

    /** For "ko", one expression token per "+"-part of slot 7, or `null` when slot 7 is
        "*"; `null` for "jp". */
    function Expression(): (r: Result<Js<seq<ExpressionToken>>, TokenError>)
      ensures engine == JP ==> r == Ok(Null)
      ensures engine == KO && IsEmptySlot(7) ==> r == Ok(Null)
      ensures engine == KO && |features| <= 7 ==> r == Err(TypeError)
      ensures engine == KO && 7 < |features| && !IsEmptySlot(7) ==>
                && r.Ok? && r.value.Val?
                && |r.value.value| == Count(features[7], '+') + 1
                && Join(Texts(r.value.value), '+') == features[7]
                && forall i :: 0 <= i < |r.value.value| ==>
                     r.value.value[i].Valid() && '+' !in r.value.value[i].Text()
    {
      if engine == KO then
        if Slot(features, 7) != Val(EMPTY) then
          if 7 < |features| then
            var parts := Split(features[7], '+');
            var es := NewExpressionTokens(parts);
            JoinSplit(features[7], '+');
            assert Texts(es) == parts;
            Ok(Val(es))
          else Err(TypeError)
        else Ok(Null)
      else Ok(Null)
    }

    /** Whether the syllable ends in a final consonant: slot 2 is "T"; `null` for "jp". */
    function HasBatchim(): (r: Js<bool>)
      ensures engine == JP ==> r == Null
      ensures engine == KO ==> r.Val? && (r.value <==> 2 < |features| && features[2] == "T")
    {
      if engine == KO then Val(Slot(features, 2) == Val("T")) else Null
    }

    /** Same question as HasBatchim under its other name. */
    function HasJongseong(): (r: Js<bool>)
      ensures engine == JP ==> r == Null
      ensures engine == KO ==> r.Val? && (r.value <==> 2 < |features| && features[2] == "T")
    {
      HasBatchim()
    }

    /** For "ko", the "+"-parts of slot 0; `undefined` for "jp". */
    function Pos(): (r: Js<seq<string>>)
      requires Valid()
      ensures engine == JP ==> r == Undefined
      ensures engine == KO ==>
                && r.Val? && |r.value| == Count(features[0], '+') + 1
                && Join(r.value, '+') == features[0]
                && forall i :: 0 <= i < |r.value| ==> '+' !in r.value[i]
    {
      if engine == KO then
        JoinSplit(features[0], '+');
        Val(Split(features[0], '+'))
      else Undefined
    }

    /** For "ko", slot 3 with "*" as `null`; `undefined` for "jp". */
    function Pronunciation(): (r: Js<string>)
      ensures engine == JP ==> r == Undefined
      ensures engine == KO ==> ReadsSlot(r, features, 3)
    {
      if engine == KO then EmptyAsNull(Slot(features, 3)) else Undefined
    }

    /** Same slot as Pronunciation. */
    function Reading(): (r: Js<string>)
      ensures engine == JP ==> r == Undefined
      ensures engine == KO ==> ReadsSlot(r, features, 3)
    {
      Pronunciation()
    }

    /** For "ko", slot 1 with "*" as `null`; `null` for "jp". */
    function SemanticClass(): (r: Js<string>)
      ensures engine == JP ==> r == Null
      ensures engine == KO ==> ReadsSlot(r, features, 1)
    {
      if engine == KO then EmptyAsNull(Slot(features, 1)) else Null
    }

    /** For "ko", slot 4 (inflection, compound or pre-analysed) with "*" as `null`; `null`
        for "jp". */
    function Type(): (r: Js<string>)
      ensures engine == JP ==> r == Null
      ensures engine == KO ==> ReadsSlot(r, features, 4)
    {
      if engine == KO then EmptyAsNull(Slot(features, 4)) else Null
    }

    /** The surface, a tab and the features joined with ","; when no feature holds a
        comma, splitting what follows the tab on "," gives the features back. */
    function Raw(): (r: string)
      ensures surface <= r && |surface| < |r| && r[|surface|] == '\t'
      ensures Valid() && (forall i :: 0 <= i < |features| ==> ',' !in features[i]) ==>
                Split(r[|surface| + 1..], ',') == features
    {
      var r := surface + "\t" + Join(features, ',');
      assert r[|surface| + 1..] == Join(features, ',');
      if features != [] && forall i | 0 <= i < |features| :: ',' !in features[i] then
        SplitJoin(features, ',');
        r
      else r
    }
  }

  /** `new Token(engine, raw)`: the engine must be "jp" or "ko" exactly; the surface is the
      text before the first tab and the features are the text between the first and the
      second tab split on ","; a line without a tab throws (`.split` on `undefined`). */
  function NewToken(engine: string, raw: string): (r: Result<Token, TokenError>)
    ensures EngineFromName(engine).None? ==> r == Err(UnsupportedEngine(engine))
    ensures EngineFromName(engine).Some? && '\t' !in raw ==> r == Err(TypeError)
    ensures EngineFromName(engine).Some? && '\t' in raw ==>
              && r.Ok? && r.value.Valid()
              && r.value.engine == EngineFromName(engine).value
              && FieldBefore(r.value.surface, raw, '\t')
              && |r.value.surface| < |raw|
              && FieldBefore(Join(r.value.features, ','), raw[|r.value.surface| + 1..], '\t')
              && forall i :: 0 <= i < |r.value.features| ==> ',' !in r.value.features[i]
  {
    match EngineFromName(engine)
    case None => Err(UnsupportedEngine(engine))
    case Some(e) =>
      var parts := Split(raw, '\t');
      CountZero(raw, '\t');
      if |parts| < 2 then
        Err(TypeError)
      else
        SplitTail(raw, '\t');
        JoinSplit(parts[1], ',');
        Ok(Token(e, parts[0], Split(parts[1], ',')))
  }

  /** The second part of a split is the field after the first separator. */
  lemma SplitTail(s: string, sep: char)
    requires |Split(s, sep)| >= 2
    ensures |Split(s, sep)[0]| < |s|
    ensures Split(s, sep)[1..] == Split(s[|Split(s, sep)[0]| + 1..], sep)
  {
    var p := Split(s, sep)[0];
    FirstSeparator(s, sep);
    var t := s[|p| + 1..];
    SplitPrefix(p, [sep] + t, sep);
    SplitLeadingSep(t, sep);
  }

  /** With a separator in `s`, the first part is followed by it. */
  lemma FirstSeparator(s: string, sep: char)
    requires |Split(s, sep)| >= 2
    ensures |Split(s, sep)[0]| < |s|
    ensures s == Split(s, sep)[0] + ([sep] + s[|Split(s, sep)[0]| + 1..])
  {
    var p := Split(s, sep)[0];
    CountZero(s, sep);
    assert |p| < |s| && s[|p|] == sep;
    assert s == s[..|p|] + s[|p|..];
    assert s[|p|..] == [sep] + s[|p| + 1..];
  }

  /** A built token holds the first tab-separated part and the second one split on ",". */
  lemma NewTokenParts(engine: string, line: string)
    requires NewToken(engine, line).Ok?
    ensures |Split(line, '\t')| >= 2
    ensures NewToken(engine, line).value.surface == Split(line, '\t')[0]
    ensures NewToken(engine, line).value.features == Split(Split(line, '\t')[1], ',')
  {
  }

  /** `raw` gives back the line a token was built from when the line holds exactly one
      tab; with more tabs, what follows the second tab is lost and `raw` is a proper
      prefix of the line. */
  lemma RawRoundTrip(engine: string, line: string)
    requires NewToken(engine, line).Ok?
    ensures NewToken(engine, line).value.Raw() <= line
    ensures NewToken(engine, line).value.Raw() == line <==> Count(line, '\t') == 1
  {
    var t := NewToken(engine, line).value;
    var parts := Split(line, '\t');
    NewTokenParts(engine, line);
    assert t.Raw() == parts[0] + "\t" + parts[1] by {
      JoinSplit(parts[1], ',');
    }
    assert line == Join(parts, '\t') by {
      JoinSplit(line, '\t');
    }
    JoinFirstTwo(parts, '\t');
  }

  /** A line written as the surface, a tab and comma-joined slots (none holding a tab or
      a comma) builds the token with exactly that surface and those slots. */
  lemma {:induction false} TokenFromFields(e: Engine, surface: string, fs: seq<string>)
    requires '\t' !in surface && fs != []
    requires forall i :: 0 <= i < |fs| ==> '\t' !in fs[i] && ',' !in fs[i]
    ensures NewToken(EngineName(e), surface + "\t" + Join(fs, ',')) == Ok(Token(e, surface, fs))
  {
    var feats := Join(fs, ',');
    JoinAvoids(fs, ',', '\t');
    assert Join([surface, feats], '\t') == surface + "\t" + feats;
    SplitJoin([surface, feats], '\t');
    SplitJoin(fs, ',');
  }

  /** Getters that read a slot never answer "*": that value always reads as `null`. */
  lemma EmptySlotIsNull(t: Token)
    requires t.engine == KO
    ensures t.SemanticClass() != Val(EMPTY) && t.Pronunciation() != Val(EMPTY)
    ensures t.Reading() != Val(EMPTY) && t.Type() != Val(EMPTY)
    ensures (t.SemanticClass() == Null <==> t.IsEmptySlot(1)) && (t.Type() == Null <==> t.IsEmptySlot(4))
    ensures (t.Reading() == Null <==> t.IsEmptySlot(3)) && t.Pronunciation() == t.Reading()
  {
  }

  /** For "jp", `pos`, `pronunciation` and `reading` have no return and give `undefined`,
      while every other engine-specific getter gives `null`. */
  lemma JapaneseGetters(t: Token)
    requires t.engine == JP && t.Valid()
    ensures t.Pos() == Undefined && t.Pronunciation() == Undefined && t.Reading() == Undefined
    ensures t.Base() == Ok(Null) && t.Expression() == Ok(Null) && t.SemanticClass() == Null
    ensures t.Type() == Null && t.HasBatchim() == Null && t.HasJongseong() == Null
  {
  }

  /** `hasBatchim` and `hasJongseong` always agree. */
  lemma BatchimIsJongseong(t: Token)
    ensures t.HasBatchim() == t.HasJongseong()
  {
  }

  /** A Korean token throws from `base` or `expression` only when slot 7 is missing; with
      all eight slots no getter is `undefined`. */
  lemma KoreanGettersDefined(t: Token)
    requires t.engine == KO && t.Valid()
    ensures |t.features| > 7 ==> t.Base().Ok? && t.Expression().Ok?
    ensures |t.features| > 7 ==> t.SemanticClass() != Undefined && t.Reading() != Undefined
    ensures |t.features| > 7 ==> t.Pronunciation() != Undefined
    ensures |t.features| > 7 ==> t.Type() != Undefined && t.Pos() != Undefined
    ensures t.Expression().Err? <==> |t.features| <= 7
  {
  }
}
