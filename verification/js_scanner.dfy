/** The untyped XScanner (index.js): the same cursor and option dispatcher
    as the typed one, with two boolean settings (`caseInsensitive`,
    `complexOutput`) in place of the mode registries, an undo slot that is a
    true swap, and records whose `value` holds the result.

    The scanner is an immutable value; every mutator returns the scanner as
    the method leaves it. Type and macro functions are registered as
    `Function` values and run through the uninterpreted functions of `Env`. */
module JsScanner {
  import opened Outcomes
  import opened JsValues
  import opened Matching
  import opened Cursor

  const InitialState: State := State(0, 0, Null)

  datatype Scanner = Scanner(
    text: string,
    pos: int,
    lastPos: int,
    lastMatch: Value,
    lastState: State,
    pointers: map<string, State>,
    types: map<string, Function>,
    macros: map<string, Function>,
    data: map<string, Value>,
    caseInsensitive: bool,
    complexOutput: bool)

  /** What `#check` builds for one option: `kind` is the source's `type`
      field, and only enum records carry `textMatched`. */
  datatype Record = Record(matched: bool, kind: Value, key: Value, value: Value, textMatched: Option<Value>)

  /** What `check` and `scan` return: the bare value, or the record when
      `complexOutput` is set. */
  datatype Output = Simple(value: Value) | Complex(record: Record)

  /** A type function's return value and the duplicate as it left it. */
  datatype TypeRun = TypeRun(output: Value, dup: Scanner)

  datatype Error =
    | UnknownPointer(name: string)
    | UnknownType(typeName: Value)
    | UnknownMacro(name: string)
    | NotAFunction
    | EnumKeyIsEnum
    | NoOptions            // `#check()` with no options writes to a null record
    | LengthOfNullish      // `updateMatch(null)` reads `null.length`
    | PositionNotANumber   // the source would store NaN in `pos`

  type Step<T> = Outcomes.Step<T, Error, Scanner>

  /** The collaborators the scanner calls but does not define. */
  datatype Env = Env(
    engine: Engine,
    typeFn: (Function, Scanner, seq<Value>) -> TypeRun,
    macroFn: (Function, Scanner, seq<Value>) -> Scanner)

  // ---------------------------------------------------------------------
  // State and cursor

  function New(text: string): Scanner {
    Scanner(text, 0, 0, Null, InitialState, map[], map[], map[], map[], false, false)
  }

  /** Every position the scanner can return to lies inside the text. */
  ghost predicate Valid(s: Scanner) {
    && 0 <= s.pos <= |s.text|
    && 0 <= s.lastState.pos <= |s.text|
    && forall name :: name in s.pointers ==> 0 <= s.pointers[name].pos <= |s.text|
  }

  function Unscanned(s: Scanner): string {
    SliceFrom(s.text, s.pos)
  }

  function CurrentState(s: Scanner): State {
    State(s.pos, s.lastPos, s.lastMatch)
  }

  function UpdateLastState(s: Scanner): Scanner {
    s.(lastState := CurrentState(s))
  }

  /** `setCaseInsensitive(option)` */
  function SetCaseInsensitive(s: Scanner, option: Value): (r: Scanner)
    ensures r.caseInsensitive <==> Truthy(option)
    ensures r == s.(caseInsensitive := r.caseInsensitive)
  {
    s.(caseInsensitive := Truthy(option))
  }

  /** `setComplexOutput(option)` */
  function SetComplexOutput(s: Scanner, option: Value): (r: Scanner)
    ensures r.complexOutput <==> Truthy(option)
    ensures r == s.(complexOutput := r.complexOutput)
  {
    s.(complexOutput := Truthy(option))
  }

  /** `movePosition(n)` */
  function MovePosition(s: Scanner, n: int): (r: Scanner)
    ensures r.lastState == CurrentState(s)
    ensures r.lastPos == s.pos
    ensures 0 <= r.pos <= |s.text|
    ensures 0 <= s.pos + n <= |s.text| ==> r.pos == s.pos + n
    ensures s.pos + n < 0 ==> r.pos == 0
    ensures s.pos + n > |s.text| ==> r.pos == |s.text|
    ensures r == s.(pos := r.pos, lastPos := r.lastPos, lastState := r.lastState)
    ensures Valid(s) ==> Valid(r)
  {
    var moved := UpdateLastState(s).(lastPos := s.pos, pos := s.pos + n);
    moved.(pos := Clamp(moved.pos, |s.text|))
  }

  /** `setPosition(n)` */
  function SetPosition(s: Scanner, n: int): (r: Scanner)
    ensures r.lastState == CurrentState(s)
    ensures r.lastPos == s.pos
    ensures 0 <= n <= |s.text| ==> r.pos == n
    ensures n < 0 ==> r.pos == 0
    ensures n > |s.text| ==> r.pos == |s.text|
    ensures r == s.(pos := r.pos, lastPos := r.lastPos, lastState := r.lastState)
    ensures Valid(s) ==> Valid(r)
  {
    var moved := UpdateLastState(s).(lastPos := s.pos, pos := n);
    moved.(pos := Clamp(moved.pos, |s.text|))
  }

  /** `reset(everything)`: the undo slot survives a partial reset; a full
      reset sets it to a record whose `lastMatch` is the number 0. */
  function Reset(s: Scanner, everything: bool): (r: Scanner)
    ensures r.pos == 0 && r.lastPos == 0 && r.lastMatch == Null
    ensures !everything ==> r == s.(pos := 0, lastPos := 0, lastMatch := Null)
    ensures everything ==> r == New(s.text).(lastState := State(0, 0, Num(0)))
    ensures Valid(s) ==> Valid(r)
  {
    var base := s.(pos := 0, lastPos := 0, lastMatch := Null);
    if everything then
      base.(pointers := map[], types := map[], macros := map[], data := map[],
            caseInsensitive := false, complexOutput := false,
            lastState := State(0, 0, Num(0)))
    else base
  }

  /** `updateMatch(match)`: move by the match's length, then record it. */
  function UpdateMatch(s: Scanner, m: Value): (r: Step<()>)
    ensures r.Threw? ==> r.after == s
    ensures r.Threw? <==> !ReadLength(m).Length?
    ensures IsNullish(m) ==> r.error == LengthOfNullish
    ensures r.Done? ==> r.after == MovePosition(s, ReadLength(m).n).(lastMatch := m)
  {
    match ReadLength(m)
    case Length(n) => Done((), MovePosition(s, n).(lastMatch := m))
    case ThrowsTypeError => Threw(LengthOfNullish, s)
    case NotANumber => Threw(PositionNotANumber, s)
  }

  /** `updateMatch` with a string: the cursor advances over `t`, exactly
      past it when `t` is what lies at the cursor. */
  function Commit(s: Scanner, t: string): (r: Scanner)
    ensures UpdateMatch(s, Str(t)) == Done((), r)
    ensures r.lastState == CurrentState(s)
    ensures r.lastPos == s.pos && r.lastMatch == Str(t)
    ensures r == s.(pos := r.pos, lastPos := r.lastPos, lastMatch := r.lastMatch, lastState := r.lastState)
    ensures Valid(s) ==> Valid(r)
    ensures Valid(s) && |t| <= |Unscanned(s)| ==> r.pos == s.pos + |t|
    ensures Valid(s) && StartsWith(Unscanned(s), t) ==> s.text[s.pos..r.pos] == t
  {
    MovePosition(s, |t|).(lastMatch := Str(t))
  }

  /** `undoLastMovement()`: swap the current state with the undo slot. */
  function Undo(s: Scanner): (r: Scanner)
    ensures CurrentState(r) == s.lastState
    ensures r.lastState == CurrentState(s)
    ensures r == s.(pos := r.pos, lastPos := r.lastPos, lastMatch := r.lastMatch, lastState := r.lastState)
    ensures Valid(s) ==> Valid(r)
  {
    s.(pos := s.lastState.pos, lastPos := s.lastState.lastPos,
       lastMatch := s.lastState.lastMatch, lastState := CurrentState(s))
  }

  /** The swap is its own inverse: two undos in a row change nothing. */
  lemma UndoTwice(s: Scanner)
    ensures Undo(Undo(s)) == s
  {
  }

  /** One undo after a cursor move restores the state before the move. */
  lemma UndoAfterMove(s: Scanner, n: int)
    ensures CurrentState(Undo(MovePosition(s, n))) == CurrentState(s)
  {
  }

  /** Undo on a fresh scanner leaves `(0, 0, null)`. */
  lemma UndoOnFreshScanner(text: string)
    ensures CurrentState(Undo(New(text))) == State(0, 0, Null)
  {
  }

  /** After a full reset an undo yields `lastMatch` 0, not null. */
  lemma UndoAfterFullReset(s: Scanner)
    ensures CurrentState(Undo(Reset(s, true))) == State(0, 0, Num(0))
  {
  }

  /** `duplicate()`: a fresh scanner with the cursor, pointers, registries
      and settings copied. The undo slot is the constructor's and `data` is
      not copied. */
  function Duplicate(s: Scanner): (r: Scanner)
    ensures r.text == s.text && CurrentState(r) == CurrentState(s)
    ensures r.pointers == s.pointers && r.types == s.types && r.macros == s.macros
    ensures r.caseInsensitive == s.caseInsensitive && r.complexOutput == s.complexOutput
    ensures r.lastState == InitialState && r.data == map[]
  {
    Scanner(s.text, s.pos, s.lastPos, s.lastMatch, InitialState,
            s.pointers, s.types, s.macros, map[], s.caseInsensitive, s.complexOutput)
  }

  // ---------------------------------------------------------------------
  // Pointers and registries

  /** `savePointer(name)`: returns the snapshot it stored. */
  function SavePointer(s: Scanner, name: string): (r: Step<State>)
    ensures r.Done? && r.out == CurrentState(s)
    ensures r.after.pointers == s.pointers[name := CurrentState(s)]
    ensures r.after == s.(pointers := r.after.pointers)
    ensures Valid(s) ==> Valid(r.after)
  {
    Done(CurrentState(s), s.(pointers := s.pointers[name := CurrentState(s)]))
  }

  /** `loadPointer(name)`: the undo slot is overwritten before the name is
      looked up, so even the failing call changes it. */
  function LoadPointer(s: Scanner, name: string): (r: Step<()>)
    ensures r.after.lastState == CurrentState(s)
    ensures r.Threw? <==> name !in s.pointers
    ensures r.Threw? ==> r.error == UnknownPointer(name) && r.after == UpdateLastState(s)
    ensures r.Done? ==> CurrentState(r.after) == s.pointers[name]
    ensures r.after == s.(pos := r.after.pos, lastPos := r.after.lastPos,
                          lastMatch := r.after.lastMatch, lastState := r.after.lastState)
    ensures Valid(s) ==> Valid(r.after)
  {
    var saved := UpdateLastState(s);
    if name in s.pointers then
      var p := s.pointers[name];
      Done((), saved.(pos := p.pos, lastPos := p.lastPos, lastMatch := p.lastMatch))
    else
      Threw(UnknownPointer(name), saved)
  }

  /** Saving, moving and loading a pointer returns to the saved cursor state. */
  lemma LoadAfterSave(s: Scanner, name: string, n: int)
    ensures var moved := MovePosition(SavePointer(s, name).after, n);
            CurrentState(LoadPointer(moved, name).after) == CurrentState(s)
  {
  }

  /** `addType(name, onScan)` */
  function AddType(s: Scanner, name: string, fn: Value): (r: Step<()>)
    ensures r.Threw? <==> !fn.Func?
    ensures r.Threw? ==> r == Threw(NotAFunction, s)
    ensures r.Done? ==> r.after.types.Keys == s.types.Keys + {name} && r.after.types[name] == fn
    ensures r.Done? ==> forall other :: other != name && other in s.types ==> r.after.types[other] == s.types[other]
    ensures r.after == s.(types := r.after.types)
  {
    if fn.Func? then Done((), s.(types := s.types[name := fn])) else Threw(NotAFunction, s)
  }

  /** `addMacro(name, fn)` */
  function AddMacro(s: Scanner, name: string, fn: Value): (r: Step<()>)
    ensures r.Threw? <==> !fn.Func?
    ensures r.Threw? ==> r == Threw(NotAFunction, s)
    ensures r.Done? ==> r.after.macros.Keys == s.macros.Keys + {name} && r.after.macros[name] == fn
    ensures r.Done? ==> forall other :: other != name && other in s.macros ==> r.after.macros[other] == s.macros[other]
    ensures r.after == s.(macros := r.after.macros)
  {
    if fn.Func? then Done((), s.(macros := s.macros[name := fn])) else Threw(NotAFunction, s)
  }

  /** A macro just added is the one `do(name)` runs. */
  lemma DoRunsAddedMacro(s: Scanner, env: Env, name: string, fn: Value, args: seq<Value>)
    requires fn.Func?
    ensures var added := AddMacro(s, name, fn).after;
            && Do(added, env, name, args).Done?
            && CurrentState(Do(added, env, name, args).after) == CurrentState(env.macroFn(fn, added, args))
  {
  }

  /** `do(name, ...args)`: run a macro, then put back both settings and the
      undo slot as they were before it ran. */
  function Do(s: Scanner, env: Env, name: string, args: seq<Value>): (r: Step<()>)
    ensures r.Threw? <==> name !in s.macros
    ensures r.Threw? ==> r == Threw(UnknownMacro(name), s)
    ensures r.Done? ==>
              && r.after.caseInsensitive == s.caseInsensitive
              && r.after.complexOutput == s.complexOutput
              && r.after.lastState == s.lastState
    ensures r.Done? ==>
              var m := env.macroFn(s.macros[name], s, args);
              && CurrentState(r.after) == CurrentState(m) && r.after.text == m.text
              && r.after.pointers == m.pointers && r.after.data == m.data
              && r.after.types == m.types && r.after.macros == m.macros
  {
    if name !in s.macros then Threw(UnknownMacro(name), s)
    else
      var m := env.macroFn(s.macros[name], s, args);
      Done((), m.(caseInsensitive := s.caseInsensitive, complexOutput := s.complexOutput,
                  lastState := s.lastState))
  }

  // ---------------------------------------------------------------------
  // Literal and pattern matching

  function Cased(s: Scanner, t: string): string {
    if s.caseInsensitive then Lower(t) else t
  }

  /** Whether a non-empty literal matches at the cursor. */
  predicate LiteralMatches(s: Scanner, lit: string) {
    lit != "" && StartsWith(Cased(s, Unscanned(s)), Cased(s, lit))
  }

  /** `checkString(s)`: the remainder's first `|s|` characters, or null. */
  function CheckString(s: Scanner, lit: string): (v: Value)
    ensures v != Null <==> LiteralMatches(s, lit)
    ensures v != Null ==> |lit| <= |Unscanned(s)| && v == Str(Unscanned(s)[..|lit|])
    ensures Truthy(v) <==> v != Null
  {
    if lit == "" then Null
    else
      var text := Unscanned(s);
      if StartsWith(Cased(s, text), Cased(s, lit)) then Str(SliceTo(text, |lit|)) else Null
  }

  /** `scanString(s)` */
  function ScanString(s: Scanner, lit: string): (r: Step<Value>)
    ensures r.Done? && r.out == CheckString(s, lit)
    ensures !LiteralMatches(s, lit) ==> r.after == s
    ensures LiteralMatches(s, lit) ==> r.after == Commit(s, Unscanned(s)[..|lit|])
  {
    var m := CheckString(s, lit);
    if Truthy(m) then
      match UpdateMatch(s, m)
      case Done(_, after) => Done(m, after)
      case Threw(e, after) => Threw(e, after)
    else Done(m, s)
  }

  /** A single-kind scan method and `scan` in simple output agree: the same
      scanner afterwards, the same throw, and the same result. */
  predicate SameScan(e: Step<Value>, o: Step<Output>) {
    && e.after == o.after
    && (e.Done? <==> o.Done?)
    && (e.Done? ==> o.out == Simple(e.out))
    && (e.Threw? ==> o.error == e.error)
  }

  /** `scanString(s)` agrees with `scan(s)` in simple output. */
  lemma ScanStringIsScan(s: Scanner, env: Env, lit: string)
    requires !s.complexOutput
    ensures SameScan(ScanString(s, lit), Scan(s, env, [Str(lit)]))
  {
  }

  /** The flags handed to the engine. */
  function EngineFlags(s: Scanner, flags: string): string {
    if s.caseInsensitive then WithIgnoreCase(flags) else flags
  }

  /** Whether the engine finds a non-empty match in the remainder for a
      pattern with a `^` in front, compiled with the given flags. */
  predicate FindsMatch(s: Scanner, env: Env, re: Regex, flags: string) {
    re.source != EmptySource
    && var m := env.engine(Anchored(re.source), flags, Unscanned(s));
       m.Some? && m.value.text != ""
  }

  /** Whether `checkRegex(r)` finds a match. */
  predicate PatternMatches(s: Scanner, env: Env, re: Regex) {
    FindsMatch(s, env, re, EngineFlags(s, re.flags))
  }

  /** `checkRegex(r)`: the empty pattern and empty matches give null. The
      `^` put in front keeps the match at the cursor only when it binds the
      whole pattern. */
  function CheckRegex(s: Scanner, env: Env, re: Regex): (v: Value)
    ensures v != Null <==> PatternMatches(s, env, re)
    ensures v != Null ==>
              var m := env.engine(Anchored(re.source), EngineFlags(s, re.flags), Unscanned(s)).value;
              v == Str(m.text) && OccursIn(m, Unscanned(s))
    ensures v != Null ==> v.s != "" && |v.s| <= |Unscanned(s)|
    ensures v != Null && PinnedToStart(Anchored(re.source), EngineFlags(s, re.flags)) ==>
              StartsWith(Unscanned(s), v.s)
    ensures Truthy(v) <==> v != Null
  {
    if re.source == EmptySource then Null
    else
      var m := env.engine(Anchored(re.source), EngineFlags(s, re.flags), Unscanned(s));
      if m.Some? && m.value.text != "" then Str(m.value.text) else Null
  }

  /** `scanRegex(r)` */
  function ScanRegex(s: Scanner, env: Env, re: Regex): (r: Step<Value>)
    ensures r.Done? && r.out == CheckRegex(s, env, re)
    ensures !PatternMatches(s, env, re) ==> r.after == s
    ensures PatternMatches(s, env, re) ==> r.after == Commit(s, r.out.s)
  {
    var m := CheckRegex(s, env, re);
    if Truthy(m) then
      match UpdateMatch(s, m)
      case Done(_, after) => Done(m, after)
      case Threw(e, after) => Threw(e, after)
    else Done(m, s)
  }

  /** `scanRegex(r)` agrees with `scan(r)` in simple output. */
  lemma ScanRegexIsScan(s: Scanner, env: Env, re: Regex)
    requires !s.complexOutput
    ensures SameScan(ScanRegex(s, env, re), Scan(s, env, [Pattern(re)]))
  {
  }

  /** On `"xb"`, `/a|b/` becomes `^a|b`, whose `^` binds `a` only: the engine
      finds `"b"` one character on, and the cursor moves over the `"x"` while
      `lastMatch` records `"b"`. */
  lemma ScanRegexSkipsText(env: Env)
    requires env.engine("^a|b", "", "xb") == Some(Found(1, "b"))
    ensures var r := ScanRegex(New("xb"), env, Regex("a|b", ""));
            && r == Done(Str("b"), r.after)
            && r.after.pos == 1 && r.after.lastMatch == Str("b")
            && "xb"[0..r.after.pos] == "x"
  {
    var s := New("xb");
    var re := Regex("a|b", "");
    assert Unscanned(s) == "xb";
    assert Anchored(re.source) == "^a|b";
    assert EngineFlags(s, re.flags) == "";
    assert CheckRegex(s, env, re) == Str("b");
    assert Commit(s, "b").pos == 1;
  }

  /** `checkRegex(r)` as intended: the pattern is compiled sticky, so the
      match must start at the cursor whatever the source's alternatives. */
  function CheckRegexFixed(s: Scanner, env: Env, re: Regex): (v: Value)
    ensures v != Null <==> FindsMatch(s, env, re, Sticky(EngineFlags(s, re.flags)))
    ensures v != Null ==> v.Str? && v.s != "" && StartsWith(Unscanned(s), v.s)
    ensures Truthy(v) <==> v != Null
  {
    if re.source == EmptySource then Null
    else
      var m := env.engine(Anchored(re.source), Sticky(EngineFlags(s, re.flags)), Unscanned(s));
      if m.Some? && m.value.text != "" then Str(m.value.text) else Null
  }

  /** `scanRegex(r)` as intended: the cursor moves over exactly the text it
      reports. */
  function ScanRegexFixed(s: Scanner, env: Env, re: Regex): (r: Step<Value>)
    ensures r.Done? && r.out == CheckRegexFixed(s, env, re)
    ensures r.out == Null ==> r.after == s
    ensures r.out != Null ==> r.after == Commit(s, r.out.s)
    ensures Valid(s) && r.out != Null ==>
              r.after.pos == s.pos + |r.out.s| && s.text[s.pos..r.after.pos] == r.out.s
  {
    var m := CheckRegexFixed(s, env, re);
    if Truthy(m) then Done(m, Commit(s, m.s)) else Done(m, s)
  }

  // ---------------------------------------------------------------------
  // Type options

  predicate IsRegistered(s: Scanner, name: Value) {
    name.Str? && name.s in s.types
  }

  function RunType(s: Scanner, env: Env, name: Value, args: seq<Value>): TypeRun
    requires IsRegistered(s, name)
  {
    env.typeFn(s.types[name.s], Duplicate(s), args)
  }

  /** `checkType(name, ...args)`: a falsy return becomes null. */
  function CheckType(s: Scanner, env: Env, name: Value, args: seq<Value>): (r: Result<Value, Error>)
    ensures r.Err? <==> !IsRegistered(s, name)
    ensures r.Err? ==> r.error == UnknownType(name)
    ensures r.Ok? ==> r.value == (if Truthy(RunType(s, env, name, args).output) then RunType(s, env, name, args).output else Null)
    ensures r.Ok? ==> (Truthy(r.value) <==> r.value != Null)
  {
    if !IsRegistered(s, name) then Err(UnknownType(name))
    else
      var run := RunType(s, env, name, args);
      Ok(if Truthy(run.output) then run.output else Null)
  }

  /** A type just added is the one `checkType(name)` runs, on a duplicate. */
  lemma CheckTypeRunsAddedType(s: Scanner, env: Env, name: string, fn: Value, args: seq<Value>)
    requires fn.Func?
    ensures var added := AddType(s, name, fn).after;
            && IsRegistered(added, Str(name))
            && RunType(added, env, Str(name), args) == env.typeFn(fn, Duplicate(added), args)
            && CheckType(added, env, Str(name), args).Ok?
  {
  }

  /** `scanType(name, ...args)`: on a truthy return, advance by the
      duplicate's `lastMatch` and return what the type returned. Only the
      cursor fields and the undo slot can change. */
  function ScanType(s: Scanner, env: Env, name: Value, args: seq<Value>): (r: Step<Value>)
    ensures !IsRegistered(s, name) ==> r == Threw(UnknownType(name), s)
    ensures IsRegistered(s, name) ==>
              var run := RunType(s, env, name, args);
              && (!Truthy(run.output) ==> r == Done(Null, s))
              && (Truthy(run.output) ==> r == (match UpdateMatch(s, run.dup.lastMatch)
                                                 case Done(_, a) => Done(run.output, a)
                                                 case Threw(e, a) => Threw(e, a)))
    ensures r.after == s.(pos := r.after.pos, lastPos := r.after.lastPos,
                          lastMatch := r.after.lastMatch, lastState := r.after.lastState)
  {
    if !IsRegistered(s, name) then Threw(UnknownType(name), s)
    else
      var run := RunType(s, env, name, args);
      if Truthy(run.output) then
        match UpdateMatch(s, run.dup.lastMatch)
        case Done(_, after) => Done(run.output, after)
        case Threw(e, after) => Threw(e, after)
      else Done(Null, s)
  }

  /** A type that scanned text on its duplicate moves the caller's cursor
      over the same text; the type's own return value is the result. */
  lemma ScanTypeCommitsDuplicateMatch(s: Scanner, env: Env, name: Value, args: seq<Value>)
    requires IsRegistered(s, name)
    requires Truthy(RunType(s, env, name, args).output)
    requires RunType(s, env, name, args).dup.lastMatch.Str?
    ensures var t := RunType(s, env, name, args).dup.lastMatch.s;
            ScanType(s, env, name, args) == Done(RunType(s, env, name, args).output, Commit(s, t))
  {
  }

  // ---------------------------------------------------------------------
  // The option dispatcher

  /** The failure record `#check` returns: type, key and value nulled, and
      an enum's `textMatched` (if any) null as well. */
  predicate Failed(rec: Record) {
    && !rec.matched && rec.kind == Null && rec.key == Null && rec.value == Null
    && (rec.textMatched == None || rec.textMatched == Some(Null))
  }

  /** The nulling `#check` applies when no option matched. */
  function Settle(rec: Record): Record {
    rec.(kind := Null, key := Null, value := Null)
  }

  /** The `check` closure inside `#check`: resolve one option. */
  function CheckOption(s: Scanner, env: Env, opt: Value): (r: Result<Record, Error>)
    decreases opt
    ensures r.Ok? && !r.value.matched ==> Failed(Settle(r.value))
    ensures r.Ok? && !IsEnum(opt) ==> (r.value.matched <==> Truthy(r.value.value))
    ensures r.Ok? && !IsEnum(opt) ==> r.value.textMatched == None
    ensures opt.Str? ==> r == Ok(Record(LiteralMatches(s, opt.s), Str("string"), opt, CheckString(s, opt.s), None))
    ensures opt.Pattern? ==> r == Ok(Record(PatternMatches(s, env, opt.r), Str("regex"), opt, CheckRegex(s, env, opt.r), None))
    ensures IsEnum(opt) && IsEnum(opt.items[0]) ==> r == Err(EnumKeyIsEnum)
    ensures IsEnum(opt) && !IsEnum(opt.items[0]) ==>
              var k := CheckOption(s, env, opt.items[0]);
              (r.Ok? <==> k.Ok?) && (k.Err? ==> r.error == k.error)
    ensures IsEnum(opt) && r.Ok? ==>
              && r.value.kind == Str("enum") && r.value.key == opt.items[0] && r.value.value == opt.items[1]
              && CheckOption(s, env, opt.items[0]).Ok?
              && (r.value.matched <==> CheckOption(s, env, opt.items[0]).value.matched)
              && r.value.textMatched.Some?
              && (r.value.matched ==> r.value.textMatched == Some(CheckOption(s, env, opt.items[0]).value.value))
    ensures opt.Arr? && |opt.items| <= 1 ==>
              var name := if |opt.items| == 0 then Undefined else opt.items[0];
              && (r.Err? <==> !IsRegistered(s, name))
              && (r.Err? ==> r.error == UnknownType(name))
              && (r.Ok? ==>
                    var v := CheckType(s, env, name, []).value;
                    r.value == Record(Truthy(v), Str("type"), name, v, None))
    ensures !opt.Str? && !opt.Pattern? && !opt.Arr? ==> r == Ok(Record(false, Null, Null, Null, None))
  {
    match opt
    case Str(lit) =>
      var v := CheckString(s, lit);
      Ok(Record(Truthy(v), Str("string"), opt, v, None))
    case Pattern(re) =>
      var v := CheckRegex(s, env, re);
      Ok(Record(Truthy(v), Str("regex"), opt, v, None))
    case Arr(items) =>
      if |items| > 1 then
        if IsEnum(items[0]) then Err(EnumKeyIsEnum)
        else
          var inner :- CheckOption(s, env, items[0]);
          var v := if inner.matched then inner.value else Settle(inner).value;
          Ok(Record(Truthy(v), Str("enum"), items[0], items[1], Some(v)))
      else
        var name := if |items| == 0 then Undefined else items[0];
        var v :- CheckType(s, env, name, []);
        Ok(Record(Truthy(v), Str("type"), name, v, None))
    case _ => Ok(Record(false, Null, Null, Null, None))
  }

  /** An option whose check completes without a match. */
  predicate Misses(s: Scanner, env: Env, opt: Value) {
    var r := CheckOption(s, env, opt);
    r.Ok? && !r.value.matched
  }

  /** An option whose check completes with a match. */
  predicate Hits(s: Scanner, env: Env, opt: Value) {
    var r := CheckOption(s, env, opt);
    r.Ok? && r.value.matched
  }

  /** Every option before index `i` misses. */
  predicate MissesBefore(s: Scanner, env: Env, opts: seq<Value>, i: int) {
    forall j :: 0 <= j < |opts| && j < i ==> Misses(s, env, opts[j])
  }

  predicate MissesAll(s: Scanner, env: Env, opts: seq<Value>) {
    MissesBefore(s, env, opts, |opts|)
  }

  /** `#check(...options)`: try the options left to right and stop at the
      first match (or the first throw). With no options the record is never
      built and the nulling step throws. */
  function Resolve(s: Scanner, env: Env, opts: seq<Value>): (r: Result<Record, Error>)
    decreases |opts|
    ensures |opts| == 0 ==> r == Err(NoOptions)
    ensures r.Ok? && !r.value.matched ==> Failed(r.value)
    ensures |opts| > 0 && MissesAll(s, env, opts) ==> r.Ok? && !r.value.matched
  {
    if |opts| == 0 then Err(NoOptions)
    else
      var rec :- CheckOption(s, env, opts[0]);
      if rec.matched then Ok(rec)
      else if |opts| == 1 then Ok(Settle(rec))
      else Resolve(s, env, opts[1..])
  }

  /** The first option that does not miss decides the outcome. */
  lemma {:induction false} ResolveFirstDecisive(s: Scanner, env: Env, opts: seq<Value>, i: nat)
    requires i < |opts|
    requires MissesBefore(s, env, opts, i)
    requires !Misses(s, env, opts[i])
    ensures Resolve(s, env, opts) == CheckOption(s, env, opts[i])
  {
    if i > 0 {
      var tail := opts[1..];
      forall j | 0 <= j < |tail| && j < i - 1
        ensures Misses(s, env, tail[j])
      {
        assert tail[j] == opts[j + 1];
      }
      assert tail[i - 1] == opts[i];
      ResolveFirstDecisive(s, env, tail, i - 1);
    }
  }

  /** An option that misses hands the search on to the options after it. */
  lemma ResolveSkipsMiss(s: Scanner, env: Env, opts: seq<Value>)
    requires |opts| > 1 && Misses(s, env, opts[0])
    ensures Resolve(s, env, opts) == Resolve(s, env, opts[1..])
  {
  }

  /** A match is the first option that matched, all earlier options having
      missed; a failure means every option missed. */
  lemma {:induction false} ResolveMatchedIff(s: Scanner, env: Env, opts: seq<Value>)
    requires |opts| > 0
    ensures (Resolve(s, env, opts).Ok? && Resolve(s, env, opts).value.matched) <==>
            exists i :: 0 <= i < |opts| && MissesBefore(s, env, opts, i) && Hits(s, env, opts[i])
    ensures (Resolve(s, env, opts).Ok? && !Resolve(s, env, opts).value.matched) <==>
            MissesAll(s, env, opts)
  {
    if !Misses(s, env, opts[0]) {
      ResolveFirstDecisive(s, env, opts, 0);
    } else if |opts| > 1 {
      var tail := opts[1..];
      ResolveSkipsMiss(s, env, opts);
      ResolveMatchedIff(s, env, tail);
      if exists i :: 0 <= i < |tail| && MissesBefore(s, env, tail, i) && Hits(s, env, tail[i]) {
        var i :| 0 <= i < |tail| && MissesBefore(s, env, tail, i) && Hits(s, env, tail[i]);
        forall j | 0 <= j < |opts| && j < i + 1
          ensures Misses(s, env, opts[j])
        {
          if j > 0 { assert opts[j] == tail[j - 1]; }
        }
        assert opts[i + 1] == tail[i];
      }
      if exists i :: 0 <= i < |opts| && MissesBefore(s, env, opts, i) && Hits(s, env, opts[i]) {
        var i :| 0 <= i < |opts| && MissesBefore(s, env, opts, i) && Hits(s, env, opts[i]);
        forall j | 0 <= j < |tail| && j < i - 1
          ensures Misses(s, env, tail[j])
        {
          assert tail[j] == opts[j + 1];
        }
        assert tail[i - 1] == opts[i];
      }
      if MissesAll(s, env, tail) {
        forall j | 0 <= j < |opts|
          ensures Misses(s, env, opts[j])
        {
          if j > 0 { assert opts[j] == tail[j - 1]; }
        }
      }
      if MissesAll(s, env, opts) {
        forall j | 0 <= j < |tail|
          ensures Misses(s, env, tail[j])
        {
          assert tail[j] == opts[j + 1];
        }
      }
    }
  }

  /** First match wins: options after a matching prefix are never consulted. */
  lemma FirstMatchWins(s: Scanner, env: Env, first: seq<Value>, rest: seq<Value>)
    requires Resolve(s, env, first).Ok? && Resolve(s, env, first).value.matched
    ensures Resolve(s, env, first + rest) == Resolve(s, env, first)
  {
    var whole := first + rest;
    ResolveMatchedIff(s, env, first);
    var i :| 0 <= i < |first| && MissesBefore(s, env, first, i) && Hits(s, env, first[i]);
    forall j | 0 <= j < |whole| && j < i
      ensures Misses(s, env, whole[j])
    {
      assert whole[j] == first[j];
    }
    assert whole[i] == first[i];
    ResolveFirstDecisive(s, env, whole, i);
    ResolveFirstDecisive(s, env, first, i);
  }


  // ---------------------------------------------------------------------
  // Output shaping

  /** `#getValue(record)`: follows `.value` links from the record. No
      modelled value has a `value` property, so the walk stops at the
      record's own `value`. */
  function GetValue(rec: Record): (v: Value)
    ensures IsNullish(v) <==> IsNullish(rec.value)
    ensures !IsNullish(rec.value) ==> v == rec.value
  {
    rec.value
  }

  /** `#getMatchedText(record)`: `textMatched ?? value`, then follow
      `textMatched ?? value` links until a string or a nullish value. No
      modelled non-string value has either property, so such a value ends
      the walk with undefined. */
  function GetMatchedText(rec: Record): (v: Value)
    ensures v.Str? || IsNullish(v)
    ensures rec.textMatched.Some? && rec.textMatched.value.Str? ==> v == rec.textMatched.value
    ensures rec.textMatched.None? && rec.value.Str? ==> v == rec.value
    ensures Failed(rec) ==> v == Null
  {
    var first := Coalesce(rec.textMatched.GetOr(Undefined), rec.value);
    if first.Str? || IsNullish(first) then first else Undefined
  }

  /** The shaping `check` applies: the bare value, or the record with its
      value resolved, reported as a failure when that value is nullish. */
  function CheckOutput(complex: bool, rec: Record): (o: Output)
    ensures !complex ==> o == Simple(rec.value)
    ensures complex ==> o.Complex? && o.record.value == rec.value
    ensures complex ==> (o.record.matched <==> rec.matched && !IsNullish(rec.value))
  {
    if !complex then Simple(GetValue(rec))
    else
      var resolved := rec.(value := GetValue(rec));
      if IsNullish(resolved.value) then Complex(resolved.(matched := false, kind := Null, key := Null))
      else Complex(resolved)
  }

  /** The shaping `scan` applies: as `check`, but only an unmatched record
      is reported as a failure. */
  function ScanOutput(complex: bool, rec: Record): (o: Output)
    ensures !complex ==> o == Simple(rec.value)
    ensures complex && (rec.matched || Failed(rec)) ==> o == Complex(rec)
    ensures complex ==> o.Complex? && (o.record.matched <==> rec.matched)
  {
    if !complex then Simple(GetValue(rec))
    else
      var resolved := rec.(value := GetValue(rec));
      if !resolved.matched then Complex(resolved.(matched := false, kind := Null, key := Null))
      else Complex(resolved)
  }

  /** `check(...options)` */
  function Check(s: Scanner, env: Env, opts: seq<Value>): (r: Result<Output, Error>)
    ensures r.Err? <==> Resolve(s, env, opts).Err?
    ensures r.Err? ==> r.error == Resolve(s, env, opts).error
    ensures r.Ok? && !s.complexOutput ==> r.value == Simple(Resolve(s, env, opts).value.value)
    ensures r.Ok? && s.complexOutput ==>
              var rec := Resolve(s, env, opts).value;
              r.value == Complex(if IsNullish(rec.value) then rec.(matched := false, kind := Null, key := Null) else rec)
    ensures r.Ok? && !Resolve(s, env, opts).value.matched ==>
              r.value == (if s.complexOutput then Complex(Record(false, Null, Null, Null, Resolve(s, env, opts).value.textMatched))
                          else Simple(Null))
  {
    var rec :- Resolve(s, env, opts);
    Ok(CheckOutput(s.complexOutput, rec))
  }

  /** `scan(...options)`: advance over the record's matched text when there
      is one. The only throw is the dispatcher's. */
  function Scan(s: Scanner, env: Env, opts: seq<Value>): (r: Step<Output>)
    ensures Resolve(s, env, opts).Err? ==> r == Threw(Resolve(s, env, opts).error, s)
    ensures Resolve(s, env, opts).Ok? ==>
              var rec := Resolve(s, env, opts).value;
              var t := GetMatchedText(rec);
              && r.Done? && r.out == ScanOutput(s.complexOutput, rec)
              && (t.Str? ==> r.after == Commit(s, t.s))
              && (!t.Str? ==> r.after == s)
              && (!rec.matched ==> r.after == s)
  {
    match Resolve(s, env, opts)
    case Err(e) => Threw(e, s)
    case Ok(rec) =>
      var text := GetMatchedText(rec);
      var moved := if IsNullish(text) then Done((), s) else UpdateMatch(s, text);
      match moved
      case Done(_, after) => Done(ScanOutput(s.complexOutput, rec), after)
      case Threw(e, after) => Threw(e, after)
  }

  /** `check` and `scan` report the same output unless an option matched
      with a nullish value, which only `check` turns into a failure in
      complex output. Without an enum's `textMatched`, `scan` advances over
      the string `check` returns. */
  lemma CheckAndScanAgree(s: Scanner, env: Env, opts: seq<Value>)
    requires Resolve(s, env, opts).Ok?
    ensures var rec := Resolve(s, env, opts).value;
            !rec.matched || !IsNullish(rec.value) ==> Scan(s, env, opts).out == Check(s, env, opts).value
    ensures var rec := Resolve(s, env, opts).value;
            s.complexOutput && rec.matched && IsNullish(rec.value) ==>
              !Check(s, env, opts).value.record.matched && Scan(s, env, opts).out.record.matched
    ensures var rec := Resolve(s, env, opts).value;
            var c := Check(s, env, opts).value;
            !s.complexOutput && rec.textMatched.None? && c.value.Str? ==>
              Scan(s, env, opts).after == Commit(s, c.value.s)
  {
  }

  /** A type that scans `t` on its duplicate and returns `true` moves the
      cursor over `t` under `scanType(name)`, while `scan([name])` reads the
      text to skip from the return value, finds none, and leaves the scanner
      as it was. */
  lemma ScanTypeDivergesFromScan(s: Scanner, env: Env, name: Value)
    requires Valid(s) && IsRegistered(s, name)
    requires RunType(s, env, name, []).output == Bool(true)
    requires var m := RunType(s, env, name, []).dup.lastMatch;
             m.Str? && m.s != "" && |m.s| <= |Unscanned(s)|
    ensures var t := RunType(s, env, name, []).dup.lastMatch.s;
            && ScanType(s, env, name, []) == Done(Bool(true), Commit(s, t))
            && ScanType(s, env, name, []).after.pos == s.pos + |t| > s.pos
            && Scan(s, env, [Arr([name])]).Done?
            && Scan(s, env, [Arr([name])]).after == s
  {
    var rec := Resolve(s, env, [Arr([name])]).value;
    assert rec.value == Bool(true) && rec.textMatched.None?;
    assert GetMatchedText(rec) == Undefined;
  }

  /** `scan([name])` as intended: the cursor moves as under `scanType(name)`,
      over what the type scanned on its duplicate, and the output is shaped
      as `scan` shapes it. */
  function ScanTypeOptionFixed(s: Scanner, env: Env, name: Value): (r: Step<Output>)
    ensures r.after == ScanType(s, env, name, []).after
    ensures r.Threw? <==> ScanType(s, env, name, []).Threw?
    ensures r.Threw? ==> r.error == ScanType(s, env, name, []).error
    ensures r.Done? && !s.complexOutput ==> r.out == Simple(ScanType(s, env, name, []).out)
    ensures IsRegistered(s, name) && RunType(s, env, name, []).output.Str?
            && RunType(s, env, name, []).dup.lastMatch == RunType(s, env, name, []).output ==>
              r == Scan(s, env, [Arr([name])])
  {
    match Resolve(s, env, [Arr([name])])
    case Err(e) => Threw(e, s)
    case Ok(rec) =>
      match ScanType(s, env, name, [])
      case Done(_, after) => Done(ScanOutput(s.complexOutput, rec), after)
      case Threw(e, after) => Threw(e, after)
  }

  /** An enum over a matching literal or pattern advances by the length of
      the text the key matched, and the substitute (even null) is the result.
      That text is what lies at the cursor for a literal and for a pattern
      the `^` pins; a pattern with a top-level `|` can match further on
      (`ScanRegexSkipsText`). */
  lemma ScanEnumOfLiteral(s: Scanner, env: Env, key: Value, value: Value)
    requires Valid(s) && !s.complexOutput
    requires key.Str? || key.Pattern?
    requires Hits(s, env, key)
    ensures var t := CheckOption(s, env, key).value.value;
            var r := Scan(s, env, [Arr([key, value])]);
            && t.Str? && r == Done(Simple(value), Commit(s, t.s))
            && r.after.pos == s.pos + |t.s|
    ensures var t := CheckOption(s, env, key).value.value;
            key.Str? || PinnedToStart(Anchored(key.r.source), EngineFlags(s, key.r.flags)) ==>
              s.text[s.pos..Scan(s, env, [Arr([key, value])]).after.pos] == t.s
  {
  }

  /** `checkEnum(key, value)`: the substitute when `check(key)` is truthy.
      In complex output `check` returns a record, which is always truthy. */
  function CheckEnum(s: Scanner, env: Env, key: Value, value: Value): (r: Result<Value, Error>)
    ensures r.Err? <==> Resolve(s, env, [key]).Err?
    ensures r.Ok? && !s.complexOutput ==> r.value == (if Truthy(Resolve(s, env, [key]).value.value) then value else Null)
    ensures r.Ok? && s.complexOutput ==> r.value == value
  {
    var out :- Check(s, env, [key]);
    Ok(if OutputTruthy(out) then value else Null)
  }

  /** `Boolean(output)`: a record is an object, so always truthy. */
  predicate OutputTruthy(o: Output) {
    match o
    case Simple(v) => Truthy(v)
    case Complex(_) => true
  }

  /** In complex output, `checkEnum` returns the substitute for a key that
      does not match: here the literal "wrong" against "Hello, World". */
  lemma CheckEnumComplexIgnoresMatch(env: Env)
    ensures var s := New("Hello, World").(complexOutput := true);
            && !LiteralMatches(s, "wrong")
            && CheckEnum(s, env, Str("wrong"), Str("greeting")) == Ok(Str("greeting"))
  {
    var s := New("Hello, World").(complexOutput := true);
    assert Unscanned(s)[0] == 'H';
  }

  /** `checkEnum` as intended: the substitute exactly when the key matched,
      whatever the output setting. */
  function CheckEnumFixed(s: Scanner, env: Env, key: Value, value: Value): (r: Result<Value, Error>)
    ensures r.Err? <==> Resolve(s, env, [key]).Err?
    ensures !s.complexOutput && !IsEnum(key) ==> r == CheckEnum(s, env, key, value)
    ensures r.Ok? && (key.Str? || key.Pattern?) ==>
              r.value == (if Hits(s, env, key) then value else Null)
  {
    var rec :- Resolve(s, env, [key]);
    Ok(if rec.matched then value else Null)
  }

  /** `scanEnum(key, value)`: an enum key throws before any matching. The
      truthy output of `check(key)` is handed to `updateMatch`, which in
      complex output is the record: its `length` is undefined and the
      position would become NaN. */
  function ScanEnum(s: Scanner, env: Env, key: Value, value: Value): (r: Step<Value>)
    ensures IsEnum(key) ==> r == Threw(EnumKeyIsEnum, s)
    ensures !IsEnum(key) && Resolve(s, env, [key]).Err? ==> r == Threw(Resolve(s, env, [key]).error, s)
    ensures !IsEnum(key) && Resolve(s, env, [key]).Ok? && s.complexOutput ==> r == Threw(PositionNotANumber, s)
    ensures !IsEnum(key) && Resolve(s, env, [key]).Ok? && !s.complexOutput ==>
              var v := Resolve(s, env, [key]).value.value;
              && (!Truthy(v) ==> r == Done(v, s))
              && (v.Str? && Truthy(v) ==> r == Done(value, Commit(s, v.s)))
  {
    if IsEnum(key) then Threw(EnumKeyIsEnum, s)
    else
      match Check(s, env, [key])
      case Err(e) => Threw(e, s)
      case Ok(out) =>
        match out
        case Complex(_) => Threw(PositionNotANumber, s)
        case Simple(v) =>
          if Truthy(v) then
            match UpdateMatch(s, v)
            case Done(_, after) => Done(value, after)
            case Threw(e, after) => Threw(e, after)
          else Done(v, s)
  }

  /** In complex output, `scanEnum` with a key that matches ("Hello" at the
      start of "Hello, World") reaches the NaN position. */
  lemma ScanEnumComplexLosesPosition(env: Env)
    ensures var s := New("Hello, World").(complexOutput := true);
            && LiteralMatches(s, "Hello")
            && ScanEnum(s, env, Str("Hello"), Str("greeting")) == Threw(PositionNotANumber, s)
  {
  }

  /** `scanEnum` as intended: the same in both output settings, so a
      matching key advances over its text and returns the substitute. */
  function ScanEnumFixed(s: Scanner, env: Env, key: Value, value: Value): (r: Step<Value>)
    ensures !s.complexOutput ==> r == ScanEnum(s, env, key, value)
    ensures r.Threw? ==> r.after == s
    ensures (key.Str? || key.Pattern?) && Misses(s, env, key) ==> r == Done(Null, s)
    ensures (key.Str? || key.Pattern?) && Hits(s, env, key) ==>
              var t := CheckOption(s, env, key).value.value;
              t.Str? && r == Done(value, Commit(s, t.s))
  {
    if IsEnum(key) then Threw(EnumKeyIsEnum, s)
    else
      match Resolve(s, env, [key])
      case Err(e) => Threw(e, s)
      case Ok(rec) =>
        if Truthy(rec.value) then
          match UpdateMatch(s, rec.value)
          case Done(_, after) => Done(value, after)
          case Threw(e, after) => Threw(e, after)
        else Done(rec.value, s)
  }
}
