/** The typed XScanner (src/index.ts): a cursor over an immutable text, a
    one-slot undo record, named pointers, type and macro registries, and the
    option dispatcher with its normal / full / advanced output shapes.

    The scanner is an immutable value; every mutator returns the scanner as
    the method leaves it. Type and macro functions are registered as
    `Function` values and run through the uninterpreted functions of `Env`. */
module TsScanner {
  import opened Outcomes
  import opened JsValues
  import opened Matching
  import opened Cursor

  /** The undo slot. `undoLastMovement` writes its record with the key
      misspelled as `lastmMatch`, so reading `lastMatch` from such a record
      gives undefined. */
  datatype Snapshot =
    | Saved(pos: int, lastPos: int, lastMatch: Value)
    | Misspelled(pos: int, lastPos: int, lastmMatch: Value)
  {
    /** `lastState.lastMatch` */
    function ReadLastMatch(): Value {
      match this
      case Saved(_, _, m) => m
      case Misspelled(_, _, _) => Undefined
    }
  }

  const InitialSnapshot: Snapshot := Saved(0, 0, Null)

  /** The output types the constructor registers; entries a caller adds
      through the `outputTypes` getter are not modelled. */
  datatype OutputType = NormalOutput | FullOutput | AdvancedOutput

  /** The comparison modes the constructor registers; entries a caller adds
      through the `comparisonModes` getter are not modelled. */
  datatype ComparisonMode = NormalMode | InsensitiveMode

  datatype Scanner = Scanner(
    text: string,
    pos: int,
    lastPos: int,
    lastMatch: Value,
    lastState: Snapshot,
    pointers: map<string, State>,
    types: map<string, Function>,
    macros: map<string, Function>,
    data: map<string, Value>,
    outputType: OutputType,
    comparisonMode: ComparisonMode)

  /** `{ matched, textMatched }`, what a comparator or a type function returns. */
  datatype Cmp = Cmp(matched: bool, textMatched: Value)

  /** `ScanOutputData`: `kind` is the source's `type` field. */
  datatype Data = Data(matched: bool, kind: Value, key: Value, result: Value, textMatched: Value) {
    function AsCmp(): Cmp {
      Cmp(matched, textMatched)
    }
  }

  datatype Error =
    | UnknownOutputType(name: string)
    | UnknownComparisonMode(name: string)
    | UnknownPointer(name: string)
    | UnknownType(name: string)
    | UnknownMacro(name: string)
    | NotAFunction
    | EnumKeyIsEnum
    | NonStringTypeName
    | LengthOfNullish      // `updateMatch(null)` reads `null.length`
    | PositionNotANumber   // the source would store NaN in `pos`

  type Step<T> = Outcomes.Step<T, Error, Scanner>

  /** The collaborators the scanner calls but does not define. A type
      function receives the duplicate scanner and its extra arguments; a
      macro receives the scanner and returns it as the macro leaves it. */
  datatype Env = Env(
    engine: Engine,
    typeFn: (Function, Scanner, seq<Value>) -> Cmp,
    macroFn: Macro)

  /** What a macro can do to the scanner it is given: the text is private
      and has no setter, and every public mutator keeps the positions inside
      the text. */
  ghost predicate MacroLaws(f: (Function, Scanner, seq<Value>) -> Scanner) {
    forall fn, s, args ::
      && f(fn, s, args).text == s.text
      && (Valid(s) ==> Valid(f(fn, s, args)))
  }

  type Macro = f: (Function, Scanner, seq<Value>) -> Scanner | MacroLaws(f)
    witness (fn: Function, s: Scanner, args: seq<Value>) => s

  /** `AdvancedScannerOutput` */
  datatype Advanced = Advanced(parent: Scanner, data: Data) {

    /** The scanner to chain on, present only after a successful match. */
    function Then(): (r: Option<Scanner>)
      ensures r.Some? <==> data.matched
      ensures r.Some? ==> r.value == parent
    {
      if data.matched then Some(parent) else None
    }
  }

  datatype Output = Plain(value: Value) | Full(data: Data) | Rich(advanced: Advanced)

  // ---------------------------------------------------------------------
  // State and cursor

  function New(text: string): Scanner {
    Scanner(text, 0, 0, Null, InitialSnapshot, map[], map[], map[], map[], NormalOutput, NormalMode)
  }

  /** The invariant the private fields keep: every position the scanner can
      return to lies inside the text. */
  ghost predicate Valid(s: Scanner) {
    && 0 <= s.pos <= |s.text|
    && 0 <= s.lastState.pos <= |s.text|
    && forall name :: name in s.pointers ==> 0 <= s.pointers[name].pos <= |s.text|
  }

  function Unscanned(s: Scanner): string {
    SliceFrom(s.text, s.pos)
  }

  function CurrentState(s: Scanner): State {
    State(s.pos, s.lastPos, s.lastMatch)
  }

  function UpdateLastState(s: Scanner): Scanner {
    s.(lastState := Saved(s.pos, s.lastPos, s.lastMatch))
  }

  /** `outputType = name` */
  function SetOutputType(s: Scanner, name: string): (r: Step<()>)
    ensures r.Threw? <==> name !in {"normal", "full", "advanced"}
    ensures r.Threw? ==> r == Threw(UnknownOutputType(name), s)
    ensures name == "normal" ==> r == Done((), s.(outputType := NormalOutput))
    ensures name == "full" ==> r == Done((), s.(outputType := FullOutput))
    ensures name == "advanced" ==> r == Done((), s.(outputType := AdvancedOutput))
    ensures r.Done? ==> r.after == s.(outputType := r.after.outputType)
  {
    if name == "normal" then Done((), s.(outputType := NormalOutput))
    else if name == "full" then Done((), s.(outputType := FullOutput))
    else if name == "advanced" then Done((), s.(outputType := AdvancedOutput))
    else Threw(UnknownOutputType(name), s)
  }

  /** `comparisonMode = mode` */
  function SetComparisonMode(s: Scanner, mode: string): (r: Step<()>)
    ensures r.Threw? <==> mode !in {"normal", "insensitive"}
    ensures r.Threw? ==> r == Threw(UnknownComparisonMode(mode), s)
    ensures mode == "normal" ==> r == Done((), s.(comparisonMode := NormalMode))
    ensures mode == "insensitive" ==> r == Done((), s.(comparisonMode := InsensitiveMode))
    ensures r.Done? ==> r.after == s.(comparisonMode := r.after.comparisonMode)
  {
    if mode == "normal" then Done((), s.(comparisonMode := NormalMode))
    else if mode == "insensitive" then Done((), s.(comparisonMode := InsensitiveMode))
    else Threw(UnknownComparisonMode(mode), s)
  }

  /** The `outputType` getter: the name the active output type was set by. */
  function OutputTypeName(s: Scanner): (name: string)
    ensures name in {"normal", "full", "advanced"}
  {
    match s.outputType
    case NormalOutput => "normal"
    case FullOutput => "full"
    case AdvancedOutput => "advanced"
  }

  /** The `comparisonMode` getter. */
  function ComparisonModeName(s: Scanner): (mode: string)
    ensures mode in {"normal", "insensitive"}
  {
    match s.comparisonMode
    case NormalMode => "normal"
    case InsensitiveMode => "insensitive"
  }

  /** Reading back an accepted output type gives the name that was set, and
      setting the current name changes nothing. */
  lemma OutputTypeRoundTrip(s: Scanner, name: string)
    ensures SetOutputType(s, name).Done? ==> OutputTypeName(SetOutputType(s, name).after) == name
    ensures SetOutputType(s, OutputTypeName(s)) == Done((), s)
  {
  }

  /** Reading back an accepted comparison mode gives the name that was set,
      and setting the current mode changes nothing. */
  lemma ComparisonModeRoundTrip(s: Scanner, mode: string)
    ensures SetComparisonMode(s, mode).Done? ==> ComparisonModeName(SetComparisonMode(s, mode).after) == mode
    ensures SetComparisonMode(s, ComparisonModeName(s)) == Done((), s)
  {
  }

  /** `movePosition(n)` */
  function MovePosition(s: Scanner, n: int): (r: Scanner)
    ensures r.lastState == Saved(s.pos, s.lastPos, s.lastMatch)
    ensures r.lastPos == s.pos
    ensures 0 <= r.pos <= |s.text|
    ensures 0 <= s.pos + n <= |s.text| ==> r.pos == s.pos + n
    ensures s.pos + n < 0 ==> r.pos == 0
    ensures s.pos + n > |s.text| ==> r.pos == |s.text|
    ensures r == s.(pos := r.pos, lastPos := r.lastPos, lastState := r.lastState)
    ensures Valid(s) ==> Valid(r)
  {
    var moved := UpdateLastState(s).(lastPos := s.pos, pos := s.pos + n);
    moved.(pos := Clamp(moved.pos, |s.text|))
  }

  /** `setPosition(n)` */
  function SetPosition(s: Scanner, n: int): (r: Scanner)
    ensures r.lastState == Saved(s.pos, s.lastPos, s.lastMatch)
    ensures r.lastPos == s.pos
    ensures 0 <= n <= |s.text| ==> r.pos == n
    ensures n < 0 ==> r.pos == 0
    ensures n > |s.text| ==> r.pos == |s.text|
    ensures r == s.(pos := r.pos, lastPos := r.lastPos, lastState := r.lastState)
    ensures Valid(s) ==> Valid(r)
  {
    var moved := UpdateLastState(s).(lastPos := s.pos, pos := n);
    moved.(pos := Clamp(moved.pos, |s.text|))
  }

  /** `reset(everything)` */
  function Reset(s: Scanner, everything: bool): (r: Scanner)
    ensures r.pos == 0 && r.lastPos == 0 && r.lastMatch == Null
    ensures r.lastState == Saved(0, 0, Null)
    ensures r.text == s.text
    ensures everything ==> r == New(s.text)
    ensures !everything ==> r == s.(pos := 0, lastPos := 0, lastMatch := Null, lastState := Saved(0, 0, Null))
    ensures Valid(s) ==> Valid(r)
  {
    var base := s.(pos := 0, lastPos := 0, lastMatch := Null);
    var cleared :=
      if everything then
        base.(pointers := map[], types := map[], macros := map[], data := map[],
              outputType := NormalOutput, comparisonMode := NormalMode)
      else base;
    cleared.(lastState := Saved(0, 0, Null))
  }

  /** `updateMatch(match)`: move by the match's length, then record it. */
  function UpdateMatch(s: Scanner, m: Value): (r: Step<()>)
    ensures r.Threw? ==> r.after == s
    ensures r.Threw? <==> !ReadLength(m).Length?
    ensures IsNullish(m) ==> r.error == LengthOfNullish
    ensures r.Done? ==> r.after == MovePosition(s, ReadLength(m).n).(lastMatch := m)
  {
    match ReadLength(m)
    case Length(n) => Done((), MovePosition(s, n).(lastMatch := m))
    case ThrowsTypeError => Threw(LengthOfNullish, s)
    case NotANumber => Threw(PositionNotANumber, s)
  }

  /** `updateMatch` with a string, which is how every comparator result
      reaches it: the cursor advances over `t`. When `t` is what lies at the
      cursor, the new position is exactly past it. */
  function Commit(s: Scanner, t: string): (r: Scanner)
    ensures UpdateMatch(s, Str(t)) == Done((), r)
    ensures r.lastState == Saved(s.pos, s.lastPos, s.lastMatch)
    ensures r.lastPos == s.pos && r.lastMatch == Str(t)
    ensures r == s.(pos := r.pos, lastPos := r.lastPos, lastMatch := r.lastMatch, lastState := r.lastState)
    ensures Valid(s) ==> Valid(r)
    ensures Valid(s) && |t| <= |Unscanned(s)| ==> r.pos == s.pos + |t|
    ensures Valid(s) && StartsWith(Unscanned(s), t) ==> s.text[s.pos..r.pos] == t
  {
    MovePosition(s, |t|).(lastMatch := Str(t))
  }

  /** `undoLastMovement()`: restore the undo record and store the current
      state in its place (under the misspelled key). */
  function Undo(s: Scanner): (r: Scanner)
    ensures r.pos == s.lastState.pos && r.lastPos == s.lastState.lastPos
    ensures r.lastMatch == s.lastState.ReadLastMatch()
    ensures r.lastState == Misspelled(s.pos, s.lastPos, s.lastMatch)
    ensures r == s.(pos := r.pos, lastPos := r.lastPos, lastMatch := r.lastMatch, lastState := r.lastState)
    ensures Valid(s) ==> Valid(r)
  {
    var previous := Misspelled(s.pos, s.lastPos, s.lastMatch);
    s.(pos := s.lastState.pos, lastPos := s.lastState.lastPos,
       lastMatch := s.lastState.ReadLastMatch(), lastState := previous)
  }

  /** One undo after a cursor move restores the state before the move. */
  lemma UndoAfterMove(s: Scanner, n: int)
    ensures CurrentState(Undo(MovePosition(s, n))) == CurrentState(s)
  {
  }

  /** Undo on a fresh scanner leaves the cursor state as it was. */
  lemma UndoOnFreshScanner(text: string)
    ensures CurrentState(Undo(New(text))) == CurrentState(New(text))
  {
  }

  /** A second undo brings back `pos` and `lastPos` but not `lastMatch`: the
      record the first undo wrote has no `lastMatch` key. */
  lemma UndoTwice(s: Scanner)
    ensures Undo(Undo(s)).pos == s.pos && Undo(Undo(s)).lastPos == s.lastPos
    ensures Undo(Undo(s)).lastMatch == Undefined
    ensures s.lastMatch != Undefined ==> Undo(Undo(s)) != s
  {
  }

  /** `undoLastMovement()` as intended: the record it stores keeps
      `lastMatch` under its own name, so undo is a swap. */
  function UndoFixed(s: Scanner): (r: Scanner)
    ensures r.pos == s.lastState.pos && r.lastPos == s.lastState.lastPos
    ensures r.lastMatch == s.lastState.ReadLastMatch()
    ensures r.lastState == Saved(s.pos, s.lastPos, s.lastMatch)
    ensures r == s.(pos := r.pos, lastPos := r.lastPos, lastMatch := r.lastMatch, lastState := r.lastState)
    ensures Valid(s) ==> Valid(r)
  {
    UpdateLastState(s).(pos := s.lastState.pos, lastPos := s.lastState.lastPos,
                        lastMatch := s.lastState.ReadLastMatch())
  }

  /** With the corrected undo, two undos in a row restore the scanner. */
  lemma UndoFixedTwice(s: Scanner)
    requires s.lastState.Saved?
    ensures UndoFixed(UndoFixed(s)) == s
  {
  }

  /** `duplicate()`: a copy built by the constructor, so its undo slot is fresh. */
  function Duplicate(s: Scanner): (r: Scanner)
    ensures r.text == s.text && r.pos == s.pos && r.lastPos == s.lastPos && r.lastMatch == s.lastMatch
    ensures r.pointers == s.pointers && r.types == s.types && r.macros == s.macros && r.data == s.data
    ensures r.outputType == s.outputType && r.comparisonMode == s.comparisonMode
    ensures r.lastState == InitialSnapshot
  {
    Scanner(s.text, s.pos, s.lastPos, s.lastMatch, InitialSnapshot,
            s.pointers, s.types, s.macros, s.data, s.outputType, s.comparisonMode)
  }

  // ---------------------------------------------------------------------
  // Pointers and registries

  /** `savePointer(name)`; the source returns the scanner itself. */
  function SavePointer(s: Scanner, name: string): (r: Scanner)
    ensures name in r.pointers && r.pointers[name] == State(s.pos, s.lastPos, s.lastMatch)
    ensures forall other :: other != name ==> (other in r.pointers <==> other in s.pointers)
    ensures forall other :: other != name && other in s.pointers ==> r.pointers[other] == s.pointers[other]
    ensures r == s.(pointers := r.pointers)
    ensures Valid(s) ==> Valid(r)
  {
    s.(pointers := s.pointers[name := CurrentState(s)])
  }

  /** `loadPointer(name)`: the undo slot is overwritten before the name is
      looked up, so even the failing call changes it. */
  function LoadPointer(s: Scanner, name: string): (r: Step<()>)
    ensures r.after.lastState == Saved(s.pos, s.lastPos, s.lastMatch)
    ensures r.Threw? <==> name !in s.pointers
    ensures r.Threw? ==> r.error == UnknownPointer(name) && r.after == UpdateLastState(s)
    ensures r.Done? ==> CurrentState(r.after) == s.pointers[name]
    ensures r.after == s.(pos := r.after.pos, lastPos := r.after.lastPos,
                          lastMatch := r.after.lastMatch, lastState := r.after.lastState)
    ensures Valid(s) ==> Valid(r.after)
  {
    var saved := UpdateLastState(s);
    if name in s.pointers then
      var p := s.pointers[name];
      Done((), saved.(pos := p.pos, lastPos := p.lastPos, lastMatch := p.lastMatch))
    else
      Threw(UnknownPointer(name), saved)
  }

  /** Saving, moving and loading a pointer returns to the saved cursor state. */
  lemma LoadAfterSave(s: Scanner, name: string, n: int)
    ensures var moved := MovePosition(SavePointer(s, name), n);
            CurrentState(LoadPointer(moved, name).after) == CurrentState(s)
  {
  }

  /** `addType(name, onScan)` */
  function AddType(s: Scanner, name: string, fn: Value): (r: Step<()>)
    ensures r.Threw? <==> !fn.Func?
    ensures r.Threw? ==> r == Threw(NotAFunction, s)
    ensures r.Done? ==> r.after.types.Keys == s.types.Keys + {name} && r.after.types[name] == fn
    ensures r.Done? ==> forall other :: other != name && other in s.types ==> r.after.types[other] == s.types[other]
    ensures r.after == s.(types := r.after.types)
  {
    if fn.Func? then Done((), s.(types := s.types[name := fn])) else Threw(NotAFunction, s)
  }

  /** `removeType(name)` */
  function RemoveType(s: Scanner, name: string): (r: Step<()>)
    ensures r.Threw? <==> name !in s.types
    ensures r.Threw? ==> r == Threw(UnknownType(name), s)
    ensures r.Done? ==> r.after.types.Keys == s.types.Keys - {name}
    ensures r.Done? ==> forall other :: other in r.after.types ==> r.after.types[other] == s.types[other]
    ensures r.after == s.(types := r.after.types)
  {
    if name in s.types then Done((), s.(types := s.types - {name})) else Threw(UnknownType(name), s)
  }

  /** Removing a type just added leaves the registry without that name, and
      restores the scanner when the name was not registered before. */
  lemma RemoveTypeUndoesAdd(s: Scanner, name: string, fn: Value)
    requires fn.Func?
    ensures RemoveType(AddType(s, name, fn).after, name).after == s.(types := s.types - {name})
    ensures name !in s.types ==> RemoveType(AddType(s, name, fn).after, name) == Done((), s)
  {
    var added := AddType(s, name, fn).after;
    assert added.types - {name} == s.types - {name};
    if name !in s.types {
      assert s.types - {name} == s.types;
    }
  }

  /** `addMacro(name, fn)` */
  function AddMacro(s: Scanner, name: string, fn: Value): (r: Step<()>)
    ensures r.Threw? <==> !fn.Func?
    ensures r.Threw? ==> r == Threw(NotAFunction, s)
    ensures r.Done? ==> r.after.macros.Keys == s.macros.Keys + {name} && r.after.macros[name] == fn
    ensures r.Done? ==> forall other :: other != name && other in s.macros ==> r.after.macros[other] == s.macros[other]
    ensures r.after == s.(macros := r.after.macros)
  {
    if fn.Func? then Done((), s.(macros := s.macros[name := fn])) else Threw(NotAFunction, s)
  }

  /** `removeMacro(name)` */
  function RemoveMacro(s: Scanner, name: string): (r: Step<()>)
    ensures r.Threw? <==> name !in s.macros
    ensures r.Threw? ==> r == Threw(UnknownMacro(name), s)
    ensures r.Done? ==> r.after.macros.Keys == s.macros.Keys - {name}
    ensures r.Done? ==> forall other :: other in r.after.macros ==> r.after.macros[other] == s.macros[other]
    ensures r.after == s.(macros := r.after.macros)
  {
    if name in s.macros then Done((), s.(macros := s.macros - {name})) else Threw(UnknownMacro(name), s)
  }

  /** Removing a macro just added leaves the registry without that name, and
      restores the scanner when the name was not registered before. */
  lemma RemoveMacroUndoesAdd(s: Scanner, name: string, fn: Value)
    requires fn.Func?
    ensures RemoveMacro(AddMacro(s, name, fn).after, name).after == s.(macros := s.macros - {name})
    ensures name !in s.macros ==> RemoveMacro(AddMacro(s, name, fn).after, name) == Done((), s)
  {
    var added := AddMacro(s, name, fn).after;
    assert added.macros - {name} == s.macros - {name};
    if name !in s.macros {
      assert s.macros - {name} == s.macros;
    }
  }

  /** `do(name, ...args)`: run a registered macro on the scanner itself. */
  function Do(s: Scanner, env: Env, name: string, args: seq<Value>): (r: Step<()>)
    ensures r.Threw? <==> name !in s.macros
    ensures r.Threw? ==> r == Threw(UnknownMacro(name), s)
    ensures r.Done? ==> r.after == env.macroFn(s.macros[name], s, args)
    ensures r.after.text == s.text
    ensures Valid(s) ==> Valid(r.after)
  {
    if name in s.macros then Done((), env.macroFn(s.macros[name], s, args))
    else Threw(UnknownMacro(name), s)
  }

  /** A macro just added is the one `do(name)` runs. */
  lemma DoRunsAddedMacro(s: Scanner, env: Env, name: string, fn: Value, args: seq<Value>)
    requires fn.Func?
    ensures var added := AddMacro(s, name, fn).after;
            Do(added, env, name, args) == Done((), env.macroFn(fn, added, args))
  {
  }

  // ---------------------------------------------------------------------
  // Comparators

  /** Whether a literal matches at the start of `text` in the given mode. */
  predicate LiteralMatches(mode: ComparisonMode, lit: string, text: string) {
    match mode
    case NormalMode => StartsWith(text, lit)
    case InsensitiveMode => StartsWith(Lower(text), Lower(lit))
  }

  /** The `string` comparator of the active mode. The consumed text is the
      original-case slice of the remainder, as long as the literal. */
  function CompareString(mode: ComparisonMode, lit: string, text: string): (c: Cmp)
    ensures c.matched <==> LiteralMatches(mode, lit, text)
    ensures c.matched ==> |lit| <= |text| && c.textMatched == Str(text[..|lit|])
  {
    match mode
    case NormalMode => Cmp(StartsWith(text, lit), Str(lit))
    case InsensitiveMode => Cmp(StartsWith(Lower(text), Lower(lit)), Str(SliceTo(text, |lit|)))
  }

  /** The flags the active mode hands to the engine. */
  function ModeFlags(mode: ComparisonMode, flags: string): string {
    if mode == InsensitiveMode then WithIgnoreCase(flags) else flags
  }

  /** Whether the engine finds a non-empty match in the given mode. */
  predicate PatternMatches(engine: Engine, mode: ComparisonMode, source: string, flags: string, text: string) {
    var m := engine(source, ModeFlags(mode, flags), text);
    m.Some? && m.value.text != ""
  }

  /** The `regexp` comparator of the active mode: an empty match is a
      failure. The match may lie anywhere in the text; it lies at its start
      only when the pattern pins it there. */
  function CompareRegex(engine: Engine, mode: ComparisonMode, re: Regex, text: string): (c: Cmp)
    ensures c.matched <==> PatternMatches(engine, mode, re.source, re.flags, text)
    ensures c.matched ==>
              var m := engine(re.source, ModeFlags(mode, re.flags), text).value;
              c.textMatched == Str(m.text) && OccursIn(m, text)
    ensures c.matched ==> c.textMatched.s != "" && |c.textMatched.s| <= |text|
    ensures c.matched && PinnedToStart(re.source, ModeFlags(mode, re.flags)) ==>
              StartsWith(text, c.textMatched.s)
  {
    var m := engine(re.source, ModeFlags(mode, re.flags), text);
    var matched := m.Some? && m.value.text != "";
    Cmp(matched, Str(if matched then m.value.text else ""))
  }

  // ---------------------------------------------------------------------
  // Output shaping

  /** The body shared by `_normalOutputFrom`, `_fullOutputFrom` and
      `_outputFrom`: a failure has every field but `matched` null, and a
      success reports the supplied result unless it is undefined. */
  function Normalize(m: Cmp, kind: Value, key: Value, result: Value): (d: Data)
    ensures d.matched == m.matched
    ensures !d.matched ==> d == Failure
    ensures d.matched ==> d.kind == kind && d.key == key && d.textMatched == m.textMatched
    ensures d.matched && result != Undefined ==> d.result == result
    ensures d.matched && result == Undefined ==> d.result == m.textMatched
  {
    Data(m.matched,
         if m.matched then kind else Null,
         if m.matched then key else Null,
         if m.matched then (if result != Undefined then result else m.textMatched) else Null,
         if m.matched then m.textMatched else Null)
  }

  const Failure: Data := Data(false, Null, Null, Null, Null)

  /** The shape every normalized record has. */
  predicate Normalized(d: Data) {
    && (!d.matched ==> d == Failure)
    && (d.matched && d.result == Undefined ==> d.textMatched == Undefined)
  }

  /** `check` and `scan` normalize the record `_check` returns once more,
      passing its own type, key and result. */
  function Renormalize(d: Data): (r: Data)
    ensures Normalized(r)
    ensures Normalized(d) ==> r == d
    ensures r.matched == d.matched
  {
    Normalize(d.AsCmp(), d.kind, d.key, d.result)
  }

  /** The normal output type: just the result (null on failure). */
  function NormalOutputFrom(m: Cmp, kind: Value, key: Value, result: Value): (v: Value)
    ensures !m.matched ==> v == Null
    ensures m.matched ==> v == (if result != Undefined then result else m.textMatched)
  {
    Normalize(m, kind, key, result).result
  }

  /** `_outputFrom`: render a normalized record through the active output type.
      `parent` is the scanner the advanced output chains on. */
  function OutputFrom(parent: Scanner, d: Data): (o: Output)
    ensures parent.outputType == NormalOutput ==> o == Plain(d.result)
    ensures parent.outputType == FullOutput ==> o == Full(d)
    ensures parent.outputType == AdvancedOutput ==> o.Rich? && o.advanced.data == d
    ensures parent.outputType == AdvancedOutput ==> (o.advanced.Then().Some? <==> d.matched)
    ensures parent.outputType == AdvancedOutput && d.matched ==> o.advanced.Then() == Some(parent)
  {
    match parent.outputType
    case NormalOutput => Plain(d.result)
    case FullOutput => Full(d)
    case AdvancedOutput => Rich(Advanced(parent, d))
  }

  // ---------------------------------------------------------------------
  // Literal and pattern options

  /** `_checkString(s)`: an empty literal never matches. */
  function CheckStringData(s: Scanner, lit: string): (d: Data)
    ensures d.matched <==> lit != "" && LiteralMatches(s.comparisonMode, lit, Unscanned(s))
    ensures !d.matched ==> d == Failure
    ensures d.matched ==>
              var t := Unscanned(s)[..|lit|];
              d == Data(true, Str("string"), Str(lit), Str(t), Str(t))
  {
    if lit == "" then Normalize(Cmp(false, Undefined), Undefined, Undefined, Undefined)
    else Normalize(CompareString(s.comparisonMode, lit, Unscanned(s)), Str("string"), Str(lit), Undefined)
  }

  /** `checkString(s)`: the matched text, or null. */
  function CheckString(s: Scanner, lit: string): (r: Step<Value>)
    ensures r.Done? && r.after == s
    ensures r.out != Null <==> lit != "" && LiteralMatches(s.comparisonMode, lit, Unscanned(s))
    ensures r.out != Null ==> r.out == Str(Unscanned(s)[..|lit|])
  {
    Done(CheckStringData(s, lit).result, s)
  }

  /** `scanString(s)`: advance over the literal on a match; the output is
      always the normal one. */
  function ScanString(s: Scanner, lit: string): (r: Step<Value>)
    ensures r.Done?
    ensures var d := CheckStringData(s, lit);
            && (d.matched ==> r == Done(d.result, Commit(s, d.result.s)))
            && (!d.matched ==> r == Done(Null, s))
  {
    var d := CheckStringData(s, lit);
    if d.matched then
      match UpdateMatch(s, d.result)
      case Done(_, after) => Done(NormalOutputFrom(d.AsCmp(), d.kind, d.key, Undefined), after)
      case Threw(e, after) => Threw(e, after)
    else Done(NormalOutputFrom(d.AsCmp(), Undefined, Undefined, Undefined), s)
  }

  /** `_checkRegex(r)`: the empty pattern never matches; otherwise `^` is
      put in front of the source and the pattern handed to the active
      mode's comparator. The `^` pins the match to the cursor only when it
      binds the whole pattern. */
  function CheckRegexData(s: Scanner, env: Env, re: Regex): (d: Data)
    ensures d.matched <==>
              re.source != EmptySource
              && PatternMatches(env.engine, s.comparisonMode, Anchored(re.source), re.flags, Unscanned(s))
    ensures !d.matched ==> d == Failure
    ensures d.matched ==>
              && d.kind == Str("regex") && d.key == Pattern(re) && d.result == d.textMatched
              && d.textMatched
                 == Str(env.engine(Anchored(re.source), ModeFlags(s.comparisonMode, re.flags), Unscanned(s)).value.text)
              && d.textMatched.s != "" && |d.textMatched.s| <= |Unscanned(s)|
    ensures d.matched && PinnedToStart(Anchored(re.source), ModeFlags(s.comparisonMode, re.flags)) ==>
              StartsWith(Unscanned(s), d.textMatched.s)
  {
    if re.source == EmptySource then Normalize(Cmp(false, Undefined), Undefined, Undefined, Undefined)
    else
      var anchored := Regex(Anchored(re.source), re.flags);
      Normalize(CompareRegex(env.engine, s.comparisonMode, anchored, Unscanned(s)),
                Str("regex"), Pattern(re), Undefined)
  }

  /** `checkRegex(r)` */
  function CheckRegex(s: Scanner, env: Env, re: Regex): (r: Step<Value>)
    ensures r.Done? && r.after == s
    ensures r.out != Null <==> CheckRegexData(s, env, re).matched
    ensures r.out != Null ==>
              r.out == Str(env.engine(Anchored(re.source), ModeFlags(s.comparisonMode, re.flags), Unscanned(s)).value.text)
    ensures r.out != Null ==> r.out.s != "" && |r.out.s| <= |Unscanned(s)|
    ensures r.out != Null && PinnedToStart(Anchored(re.source), ModeFlags(s.comparisonMode, re.flags)) ==>
              StartsWith(Unscanned(s), r.out.s)
  {
    Done(CheckRegexData(s, env, re).result, s)
  }

  /** `scanRegex(r)` */
  function ScanRegex(s: Scanner, env: Env, re: Regex): (r: Step<Value>)
    ensures r.Done?
    ensures var d := CheckRegexData(s, env, re);
            && (d.matched ==> r == Done(d.result, Commit(s, d.result.s)))
            && (!d.matched ==> r == Done(Null, s))
  {
    var d := CheckRegexData(s, env, re);
    if d.matched then
      match UpdateMatch(s, d.result)
      case Done(_, after) => Done(NormalOutputFrom(d.AsCmp(), d.kind, d.key, Undefined), after)
      case Threw(e, after) => Threw(e, after)
    else Done(NormalOutputFrom(d.AsCmp(), Undefined, Undefined, Undefined), s)
  }

  /** On `"xb"`, `/a|b/` becomes `^a|b`, whose `^` binds `a` only: the engine
      finds `"b"` one character on, and the cursor moves over the `"x"` while
      `lastMatch` records `"b"`. */
  lemma ScanRegexSkipsText(env: Env)
    requires env.engine("^a|b", "", "xb") == Some(Found(1, "b"))
    ensures var r := ScanRegex(New("xb"), env, Regex("a|b", ""));
            && r == Done(Str("b"), r.after)
            && r.after.pos == 1 && r.after.lastMatch == Str("b")
            && "xb"[0..r.after.pos] == "x"
  {
    var s := New("xb");
    var re := Regex("a|b", "");
    assert Unscanned(s) == "xb";
    assert Anchored(re.source) == "^a|b";
    assert ModeFlags(s.comparisonMode, re.flags) == "";
    assert CheckRegexData(s, env, re).result == Str("b");
    assert Commit(s, "b").pos == 1;
  }

  /** `_checkRegex(r)` as intended: the pattern is compiled sticky, so the
      match must start at the cursor whatever the source's alternatives. */
  function CheckRegexDataFixed(s: Scanner, env: Env, re: Regex): (d: Data)
    ensures d.matched <==>
              re.source != EmptySource
              && PatternMatches(env.engine, s.comparisonMode, Anchored(re.source), Sticky(re.flags), Unscanned(s))
    ensures !d.matched ==> d == Failure
    ensures d.matched ==>
              && d.kind == Str("regex") && d.key == Pattern(re) && d.result == d.textMatched
              && d.textMatched.Str? && d.textMatched.s != "" && StartsWith(Unscanned(s), d.textMatched.s)
  {
    if re.source == EmptySource then Normalize(Cmp(false, Undefined), Undefined, Undefined, Undefined)
    else
      var anchored := Regex(Anchored(re.source), Sticky(re.flags));
      Normalize(CompareRegex(env.engine, s.comparisonMode, anchored, Unscanned(s)),
                Str("regex"), Pattern(re), Undefined)
  }

  /** `scanRegex(r)` as intended: the cursor moves over exactly the text it
      reports. */
  function ScanRegexFixed(s: Scanner, env: Env, re: Regex): (r: Step<Value>)
    ensures r.Done?
    ensures var d := CheckRegexDataFixed(s, env, re);
            && (d.matched ==> r == Done(d.result, Commit(s, d.result.s)))
            && (!d.matched ==> r == Done(Null, s))
    ensures Valid(s) && r.out != Null ==>
              r.out.Str? && r.after.pos == s.pos + |r.out.s| && s.text[s.pos..r.after.pos] == r.out.s
  {
    var d := CheckRegexDataFixed(s, env, re);
    if d.matched then Done(d.result, Commit(s, d.result.s))
    else Done(Null, s)
  }

  // ---------------------------------------------------------------------
  // Type options

  /** `_checkType(name, ...args)`: the type function runs on a duplicate. */
  function CheckTypeData(s: Scanner, env: Env, name: string, args: seq<Value>): (r: Result<Data, Error>)
    ensures r.Err? <==> name !in s.types
    ensures r.Err? ==> r.error == UnknownType(name)
    ensures r.Ok? ==>
              var m := env.typeFn(s.types[name], Duplicate(s), args);
              && r.value.matched == m.matched
              && (m.matched ==> r.value == Data(true, Str("type:" + name), Str(name), m.textMatched, m.textMatched))
              && (!m.matched ==> r.value == Failure)
  {
    if name !in s.types then Err(UnknownType(name))
    else
      var m := env.typeFn(s.types[name], Duplicate(s), args);
      Ok(Normalize(m, Str("type:" + name), Str(name), Undefined))
  }

  /** `checkType(name, ...args)` */
  function CheckType(s: Scanner, env: Env, name: string, args: seq<Value>): (r: Step<Value>)
    ensures r.after == s
    ensures r.Threw? <==> name !in s.types
    ensures r.Threw? ==> r.error == UnknownType(name)
    ensures r.Done? ==>
              var m := env.typeFn(s.types[name], Duplicate(s), args);
              r.out == (if m.matched then m.textMatched else Null)
  {
    if name !in s.types then Threw(UnknownType(name), s)
    else
      var m := env.typeFn(s.types[name], Duplicate(s), args);
      Done(NormalOutputFrom(m, Str("type:" + name), Str(name), Undefined), s)
  }

  /** `scanType(name, ...args)`: commit the `textMatched` the type function
      reported. Only the cursor fields and the undo slot can change. */
  function ScanType(s: Scanner, env: Env, name: string, args: seq<Value>): (r: Step<Value>)
    ensures r.Threw? ==> r.after == s
    ensures name !in s.types ==> r == Threw(UnknownType(name), s)
    ensures name in s.types ==>
              var m := env.typeFn(s.types[name], Duplicate(s), args);
              && (!m.matched ==> r == Done(Null, s))
              && (m.matched && m.textMatched.Str? ==> r == Done(m.textMatched, Commit(s, m.textMatched.s)))
              && (m.matched && IsNullish(m.textMatched) ==> r == Threw(LengthOfNullish, s))
    ensures r.after == s.(pos := r.after.pos, lastPos := r.after.lastPos,
                          lastMatch := r.after.lastMatch, lastState := r.after.lastState)
  {
    if name !in s.types then Threw(UnknownType(name), s)
    else
      var m := env.typeFn(s.types[name], Duplicate(s), args);
      var out := NormalOutputFrom(m, Str("type:" + name), Str(name), Undefined);
      if m.matched then
        match UpdateMatch(s, m.textMatched)
        case Done(_, after) => Done(out, after)
        case Threw(e, after) => Threw(e, after)
      else Done(out, s)
  }

  // ---------------------------------------------------------------------
  // The option dispatcher

  /** The `check` closure inside `_check`: resolve one option. Strings and
      patterns go to their comparators, `[name]` to a type, `[key, value]`
      to an enum, and any other value fails. */
  function CheckOption(s: Scanner, env: Env, opt: Value): (r: Result<Data, Error>)
    decreases opt
    ensures r.Ok? ==> Normalized(r.value)
    ensures opt.Str? ==> r == Ok(CheckStringData(s, opt.s))
    ensures opt.Pattern? ==> r == Ok(CheckRegexData(s, env, opt.r))
    ensures IsEnum(opt) && IsEnum(opt.items[0]) ==> r == Err(EnumKeyIsEnum)
    ensures IsEnum(opt) && !IsEnum(opt.items[0]) ==>
              var k := CheckOption(s, env, opt.items[0]);
              && (r.Ok? <==> k.Ok?)
              && (k.Err? ==> r.error == k.error)
              && (k.Ok? ==> r.value.matched == k.value.matched)
              && (k.Ok? && k.value.matched ==> r.value.textMatched == k.value.textMatched)
    ensures IsEnum(opt) && r.Ok? && r.value.matched ==>
              && r.value.kind == Str("enum") && r.value.key == opt.items[0]
              && (opt.items[1] != Undefined ==> r.value.result == opt.items[1])
              && (opt.items[1] == Undefined ==> r.value.result == r.value.textMatched)
    ensures opt.Arr? && |opt.items| == 1 && opt.items[0].Str? ==>
              r == CheckTypeData(s, env, opt.items[0].s, [])
    ensures opt.Arr? && |opt.items| <= 1 && !(|opt.items| == 1 && opt.items[0].Str?) ==>
              r == Err(NonStringTypeName)
    ensures !opt.Str? && !opt.Pattern? && !opt.Arr? ==> r == Ok(Failure)
  {
    match opt
    case Str(lit) => Ok(CheckStringData(s, lit))
    case Pattern(re) => Ok(CheckRegexData(s, env, re))
    case Arr(items) =>
      if |items| > 1 then
        if IsEnum(items[0]) then Err(EnumKeyIsEnum)
        else
          var inner :- CheckOption(s, env, items[0]);
          Ok(Normalize(inner.AsCmp(), Str("enum"), items[0], items[1]))
      else if |items| == 1 && items[0].Str? then CheckTypeData(s, env, items[0].s, [])
      else Err(NonStringTypeName)
    case _ => Ok(Normalize(Cmp(false, Undefined), Undefined, Undefined, Undefined))
  }

  /** An option whose check completes without a match. */
  predicate Misses(s: Scanner, env: Env, opt: Value) {
    var r := CheckOption(s, env, opt);
    r.Ok? && !r.value.matched
  }

  /** Every option before index `i` misses. */
  predicate MissesBefore(s: Scanner, env: Env, opts: seq<Value>, i: int) {
    forall j :: 0 <= j < |opts| && j < i ==> Misses(s, env, opts[j])
  }

  predicate MissesAll(s: Scanner, env: Env, opts: seq<Value>) {
    MissesBefore(s, env, opts, |opts|)
  }

  /** The record `_check` starts from, `{ matched: false }`. */
  const Unset: Data := Data(false, Undefined, Undefined, Undefined, Undefined)

  /** `_check(...options)`: try the options left to right and stop at the
      first match (or the first throw). */
  function Resolve(s: Scanner, env: Env, opts: seq<Value>): (r: Result<Data, Error>)
    decreases |opts|
    ensures |opts| == 0 ==> r == Ok(Unset)
    ensures |opts| > 0 && r.Ok? ==> Normalized(r.value)
    ensures |opts| > 0 && MissesAll(s, env, opts) ==> r == Ok(Failure)
  {
    if |opts| == 0 then Ok(Unset)
    else
      var d :- CheckOption(s, env, opts[0]);
      if d.matched || |opts| == 1 then Ok(d) else Resolve(s, env, opts[1..])
  }

  /** The first option that does not miss decides the outcome. */
  lemma {:induction false} ResolveFirstDecisive(s: Scanner, env: Env, opts: seq<Value>, i: nat)
    requires i < |opts|
    requires MissesBefore(s, env, opts, i)
    requires !Misses(s, env, opts[i])
    ensures Resolve(s, env, opts) == CheckOption(s, env, opts[i])
  {
    if i > 0 {
      var tail := opts[1..];
      forall j | 0 <= j < |tail| && j < i - 1
        ensures Misses(s, env, tail[j])
      {
        assert tail[j] == opts[j + 1];
      }
      assert tail[i - 1] == opts[i];
      ResolveFirstDecisive(s, env, tail, i - 1);
    }
  }

  /** An option that misses hands the search on to the options after it. */
  lemma ResolveSkipsMiss(s: Scanner, env: Env, opts: seq<Value>)
    requires |opts| > 1 && Misses(s, env, opts[0])
    ensures Resolve(s, env, opts) == Resolve(s, env, opts[1..])
  {
  }

  /** A match is the first option that matched, all earlier options having
      missed; a failure means every option missed. */
  lemma {:induction false} ResolveMatchedIff(s: Scanner, env: Env, opts: seq<Value>)
    requires |opts| > 0
    ensures (Resolve(s, env, opts).Ok? && Resolve(s, env, opts).value.matched) <==>
            exists i :: 0 <= i < |opts| && MissesBefore(s, env, opts, i) && Hits(s, env, opts[i])
    ensures (Resolve(s, env, opts).Ok? && !Resolve(s, env, opts).value.matched) <==>
            MissesAll(s, env, opts)
  {
    if !Misses(s, env, opts[0]) {
      ResolveFirstDecisive(s, env, opts, 0);
    } else if |opts| > 1 {
      var tail := opts[1..];
      ResolveSkipsMiss(s, env, opts);
      ResolveMatchedIff(s, env, tail);
      if exists i :: 0 <= i < |tail| && MissesBefore(s, env, tail, i) && Hits(s, env, tail[i]) {
        var i :| 0 <= i < |tail| && MissesBefore(s, env, tail, i) && Hits(s, env, tail[i]);
        forall j | 0 <= j < |opts| && j < i + 1
          ensures Misses(s, env, opts[j])
        {
          if j > 0 { assert opts[j] == tail[j - 1]; }
        }
        assert opts[i + 1] == tail[i];
      }
      if exists i :: 0 <= i < |opts| && MissesBefore(s, env, opts, i) && Hits(s, env, opts[i]) {
        var i :| 0 <= i < |opts| && MissesBefore(s, env, opts, i) && Hits(s, env, opts[i]);
        forall j | 0 <= j < |tail| && j < i - 1
          ensures Misses(s, env, tail[j])
        {
          assert tail[j] == opts[j + 1];
        }
        assert tail[i - 1] == opts[i];
      }
      if MissesAll(s, env, tail) {
        forall j | 0 <= j < |opts|
          ensures Misses(s, env, opts[j])
        {
          if j > 0 { assert opts[j] == tail[j - 1]; }
        }
      }
      if MissesAll(s, env, opts) {
        forall j | 0 <= j < |tail|
          ensures Misses(s, env, tail[j])
        {
          assert tail[j] == opts[j + 1];
        }
      }
    }
  }

  /** An option whose check completes with a match. */
  predicate Hits(s: Scanner, env: Env, opt: Value) {
    var r := CheckOption(s, env, opt);
    r.Ok? && r.value.matched
  }

  /** First match wins: options after a matching prefix are never consulted. */
  lemma FirstMatchWins(s: Scanner, env: Env, first: seq<Value>, rest: seq<Value>)
    requires Resolve(s, env, first).Ok? && Resolve(s, env, first).value.matched
    ensures Resolve(s, env, first + rest) == Resolve(s, env, first)
  {
    var whole := first + rest;
    ResolveMatchedIff(s, env, first);
    var i :| 0 <= i < |first| && MissesBefore(s, env, first, i) && Hits(s, env, first[i]);
    forall j | 0 <= j < |whole| && j < i
      ensures Misses(s, env, whole[j])
    {
      assert whole[j] == first[j];
    }
    assert whole[i] == first[i];
    ResolveFirstDecisive(s, env, whole, i);
    ResolveFirstDecisive(s, env, first, i);
  }


  /** `check(...options)`: resolve and render; the scanner is not changed. */
  function Check(s: Scanner, env: Env, opts: seq<Value>): (r: Step<Output>)
    ensures r.after == s
    ensures r.Threw? <==> Resolve(s, env, opts).Err?
    ensures r.Threw? ==> r.error == Resolve(s, env, opts).error
    ensures r.Done? && |opts| > 0 ==> r.out == OutputFrom(s, Resolve(s, env, opts).value)
    ensures r.Done? && |opts| == 0 ==> r.out == OutputFrom(s, Failure)
  {
    match Resolve(s, env, opts)
    case Err(e) => Threw(e, s)
    case Ok(d) => Done(OutputFrom(s, Renormalize(d)), s)
  }

  /** A single-kind scan method and `scan` in the normal output type agree:
      the same scanner afterwards, the same throw, and the same result. */
  predicate SameScan(e: Step<Value>, o: Step<Output>) {
    && e.after == o.after
    && (e.Done? <==> o.Done?)
    && (e.Done? ==> o.out == Plain(e.out))
    && (e.Threw? ==> o.error == e.error)
  }

  /** `scan(...options)`: as `check`, then advance over `textMatched` when
      an option matched; a failure changes nothing. */
  function Scan(s: Scanner, env: Env, opts: seq<Value>): (r: Step<Output>)
    ensures Resolve(s, env, opts).Err? ==> r == Threw(Resolve(s, env, opts).error, s)
    ensures Resolve(s, env, opts).Ok? && !Resolve(s, env, opts).value.matched ==>
              r == Done(OutputFrom(s, Failure), s)
    ensures Resolve(s, env, opts).Ok? && Resolve(s, env, opts).value.matched ==>
              var d := Resolve(s, env, opts).value;
              && (d.textMatched.Str? ==> r == Done(OutputFrom(Commit(s, d.textMatched.s), d), Commit(s, d.textMatched.s)))
              && (IsNullish(d.textMatched) ==> r == Threw(LengthOfNullish, s))
    ensures r.after == s.(pos := r.after.pos, lastPos := r.after.lastPos,
                          lastMatch := r.after.lastMatch, lastState := r.after.lastState)
  {
    match Resolve(s, env, opts)
    case Err(e) => Threw(e, s)
    case Ok(d) =>
      if d.matched then
        match UpdateMatch(s, d.textMatched)
        case Done(_, after) => Done(OutputFrom(after, Renormalize(d)), after)
        case Threw(e, after) => Threw(e, after)
      else Done(OutputFrom(s, Normalize(d.AsCmp(), Undefined, Undefined, Undefined)), s)
  }

  /** A matching literal or pattern option advances by the length of the
      text it matched. That text is what lies at the cursor for a literal and
      for a pattern the `^` pins; a pattern with a top-level `|` can match
      further on (`ScanRegexSkipsText`). */
  lemma ScanLiteralAdvancesOverText(s: Scanner, env: Env, opt: Value)
    requires Valid(s)
    requires opt.Str? || opt.Pattern?
    requires Hits(s, env, opt)
    ensures var d := CheckOption(s, env, opt).value;
            && Scan(s, env, [opt]).Done?
            && Scan(s, env, [opt]).after.pos == s.pos + |d.textMatched.s|
            && Scan(s, env, [opt]).after.lastMatch == d.textMatched
    ensures var d := CheckOption(s, env, opt).value;
            opt.Str? || PinnedToStart(Anchored(opt.r.source), ModeFlags(s.comparisonMode, opt.r.flags)) ==>
              s.text[s.pos..Scan(s, env, [opt]).after.pos] == d.textMatched.s
  {
  }

  /** `checkEnum(key, value)`: no guard against an enum key here. */
  function CheckEnum(s: Scanner, env: Env, key: Value, value: Value): (r: Step<Value>)
    ensures r.after == s
    ensures r.Threw? <==> CheckOption(s, env, key).Err?
    ensures r.Done? ==>
              var d := CheckOption(s, env, key).value;
              r.out == (if !d.matched then Null else if value != Undefined then value else d.textMatched)
  {
    match Resolve(s, env, [key])
    case Err(e) => Threw(e, s)
    case Ok(d) => Done(NormalOutputFrom(d.AsCmp(), Str("enum"), key, value), s)
  }

  /** `scanEnum(key, value)`: an enum key throws before any matching. The
      result is the substitute, even a null one, while the cursor moves over
      the key's matched text. */
  function ScanEnum(s: Scanner, env: Env, key: Value, value: Value): (r: Step<Value>)
    ensures IsEnum(key) ==> r == Threw(EnumKeyIsEnum, s)
    ensures !IsEnum(key) && CheckOption(s, env, key).Err? ==> r == Threw(CheckOption(s, env, key).error, s)
    ensures !IsEnum(key) && Misses(s, env, key) ==> r == Done(Null, s)
    ensures !IsEnum(key) && Hits(s, env, key) && value != Undefined ==>
              var t := CheckOption(s, env, key).value.textMatched;
              t.Str? ==> r == Done(value, Commit(s, t.s))
    ensures !IsEnum(key) && Hits(s, env, key) && value == Undefined ==>
              var t := CheckOption(s, env, key).value.textMatched;
              t.Str? ==> r == Done(t, Commit(s, t.s))
    ensures r.after == s.(pos := r.after.pos, lastPos := r.after.lastPos,
                          lastMatch := r.after.lastMatch, lastState := r.after.lastState)
  {
    if IsEnum(key) then Threw(EnumKeyIsEnum, s)
    else
      match Resolve(s, env, [key])
      case Err(e) => Threw(e, s)
      case Ok(d) =>
        var out := NormalOutputFrom(d.AsCmp(), Str("enum"), key, value);
        if d.matched then
          match UpdateMatch(s, d.textMatched)
          case Done(_, after) => Done(out, after)
          case Threw(e, after) => Threw(e, after)
        else Done(out, s)
  }

  /** `scanEnum(key, value)` behaves as `scan([key, value])` in the normal
      output type, including a null substitute that still advances. */
  lemma ScanEnumIsScanOfEnum(s: Scanner, env: Env, key: Value, value: Value)
    requires s.outputType == NormalOutput
    requires !IsEnum(key)
    ensures SameScan(ScanEnum(s, env, key, value), Scan(s, env, [Arr([key, value])]))
  {
  }

  /** `scanString(s)` behaves as `scan(s)` in the normal output type. */
  lemma ScanStringIsScan(s: Scanner, env: Env, lit: string)
    requires s.outputType == NormalOutput
    ensures SameScan(ScanString(s, lit), Scan(s, env, [Str(lit)]))
  {
  }

  /** `scanRegex(r)` behaves as `scan(r)` in the normal output type. */
  lemma ScanRegexIsScan(s: Scanner, env: Env, re: Regex)
    requires s.outputType == NormalOutput
    ensures SameScan(ScanRegex(s, env, re), Scan(s, env, [Pattern(re)]))
  {
  }

  /** `scanType(name)` behaves as `scan([name])` in the normal output type. */
  lemma ScanTypeIsScan(s: Scanner, env: Env, name: string)
    requires s.outputType == NormalOutput
    ensures SameScan(ScanType(s, env, name, []), Scan(s, env, [Arr([Str(name)])]))
  {
  }
}
