/**
  A process-wide registry of debug knobs read from environment variables:
  the store of knobs currently in use, typed accessors that parse a knob on
  every call, and registered handles whose identity is stable across calls.
  The environment is a map held by the registry; log.Fatalf and the
  init-time panic are outcomes rather than process exits.
 */
module Envknob {
  import opened Strconv
  import opened StringOrder

  /** What an accessor yields: its value, or one of the two ways the process stops. */
  datatype Outcome<+T> =
    | Ok(value: T)
    | Fatal(knob: string, raw: string)  // log.Fatalf naming the knob and its malformed value
    | InitPanic                         // the panic of the init-time guard

  /** opt.Bool: unset, or explicitly true or false. */
  datatype Tristate = Unset | Explicit(value: bool)

  const SSHServerKnob: string := "TS_DISABLE_SSH_SERVER"
  const NoLogsNoSupportKnob: string := "TS_NO_LOGS_NO_SUPPORT"

  /** Every knob in the store holds a non-empty value. */
  predicate NonEmptyValues(store: map<string, string>) {
    forall k :: k in store ==> store[k] != ""
  }

  /** The store update rule: a non-empty value is recorded, an empty one removes the knob. */
  function Noted(store: map<string, string>, k: string, v: string): (s: map<string, string>)
    ensures v != "" ==> k in s && s[k] == v
    ensures v == "" ==> k !in s
    ensures forall k' :: k' != k ==> (k' in s <==> k' in store)
    ensures forall k' :: k' != k && k' in s ==> s[k'] == store[k']
    ensures NonEmptyValues(store) ==> NonEmptyValues(s)
  {
    if v != "" then store[k := v] else store - {k}
  }

  /** Only the latest observation of a knob matters: the store keeps no history. */
  lemma NotedLastWins(store: map<string, string>, k: string, v1: string, v2: string)
    ensures Noted(Noted(store, k, v1), k, v2) == Noted(store, k, v2)
  {
  }

  /** The decision boolOr takes on the environment value val, with implicitValue for an absent knob. */
  function BoolOrValue(envVar: string, val: string, implicitValue: bool): (r: Outcome<bool>)
    ensures val == "" ==> r == Ok(implicitValue)
    ensures val in TrueSpellings ==> r == Ok(true)
    ensures val in FalseSpellings ==> r == Ok(false)
    ensures r.Fatal? <==> val != "" && val !in TrueSpellings + FalseSpellings
    ensures r.Fatal? ==> r.knob == envVar && r.raw == val
    ensures !r.InitPanic?
  {
    if val == "" then Ok(implicitValue)
    else match ParseBool(val)
      case Some(b) => Ok(b)
      case None => Fatal(envVar, val)
  }

  /** Reading back the canonical form boolOr records gives the same boolean. */
  lemma CanonicalFormRereads(envVar: string, val: string, implicitValue: bool, implicitValue': bool)
    requires val != "" && BoolOrValue(envVar, val, implicitValue).Ok?
    ensures BoolOrValue(envVar, FormatBool(BoolOrValue(envVar, val, implicitValue).value), implicitValue')
         == BoolOrValue(envVar, val, implicitValue)
  {
  }

  /** The decision LookupInt takes on the environment value val: (value, ok), or fatal. */
  function LookupIntValue(envVar: string, val: string): (r: Outcome<(int, bool)>)
    ensures val == "" ==> r == Ok((0, false))
    ensures r.Ok? && r.value.1 ==> val != "" && Atoi(val) == Some(r.value.0)
    ensures val != "" && Atoi(val).Some? ==> r == Ok((Atoi(val).value, true))
    ensures r.Ok? ==> MinInt <= r.value.0 <= MaxInt
    ensures r.Fatal? <==> val != "" && Atoi(val).None?
    ensures r.Fatal? ==> r.knob == envVar && r.raw == val
    ensures !r.InitPanic?
  {
    if val == "" then Ok((0, false))
    else match Atoi(val)
      case Some(n) => Ok((n, true))
      case None => Fatal(envVar, val)
  }

  /** A knob set to the decimal form of any int64 is read back as that number. */
  lemma {:induction false} LookupIntRoundTrip(envVar: string, n: int)
    requires MinInt <= n <= MaxInt
    ensures LookupIntValue(envVar, Itoa(n)) == Ok((n, true))
  {
    AtoiItoa(n);
  }

  /** The knob names of a snapshot, in order. */
  function KeysOf(lines: seq<(string, string)>): (keys: seq<string>)
    ensures |keys| == |lines|
    ensures forall i :: 0 <= i < |lines| ==> keys[i] == lines[i].0
  {
    if lines == [] then [] else [lines[0].0] + KeysOf(lines[1..])
  }

  /**
    lines is a log of store: one (name, value) line per knob in the store,
    with that knob's value, in strictly ascending order of name.
   */
  predicate IsSnapshot(store: map<string, string>, lines: seq<(string, string)>) {
    && StrictlySorted(KeysOf(lines))
    && (forall k :: k in store ==> k in KeysOf(lines))
    && (forall i :: 0 <= i < |lines| ==> lines[i].0 in store && lines[i].1 == store[lines[i].0])
  }

  /** The log of a store does not depend on the order its keys were visited in. */
  lemma SnapshotUnique(store: map<string, string>, lines1: seq<(string, string)>, lines2: seq<(string, string)>)
    requires IsSnapshot(store, lines1) && IsSnapshot(store, lines2)
    ensures lines1 == lines2
  {
    forall k ensures k in KeysOf(lines1) <==> k in KeysOf(lines2) {
      if k in KeysOf(lines1) {
        var i :| 0 <= i < |lines1| && KeysOf(lines1)[i] == k;
      }
      if k in KeysOf(lines2) {
        var i :| 0 <= i < |lines2| && KeysOf(lines2)[i] == k;
      }
    }
    StrictlySortedUnique(KeysOf(lines1), KeysOf(lines2));
    assert |lines1| == |lines2|;
    forall i | 0 <= i < |lines1| ensures lines1[i] == lines2[i] {
      assert lines1[i].0 == KeysOf(lines1)[i] == KeysOf(lines2)[i] == lines2[i].0;
    }
  }

  /** Every registered knob has its own handle. */
  predicate Injective<K, V(==)>(m: map<K, V>) {
    forall a, b :: a in m && b in m && a != b ==> m[a] != m[b]
  }

  /** The cell a registered string knob points to. */
  class StringCell {
    var value: string

    constructor (v: string)
      ensures value == v
    {
      value := v;
    }
  }

  /** The cell a registered boolean knob points to; it starts out false. */
  class BoolCell {
    var value: bool

    constructor ()
      ensures !value
    {
      value := false;
    }
  }

  class Registry {
    /** The process environment. */
    var env: map<string, string>
    /** The knobs in use: the value most recently recorded for each; recording an empty value removes it. */
    var store: map<string, string>
    /** Registered string and boolean handles, by knob name. */
    var regStr: map<string, StringCell>
    var regBool: map<string, BoolCell>
    /** Set once the main function has started; never cleared. */
    var inMain: bool

    ghost predicate Valid()
      reads this
    {
      NonEmptyValues(store) && Injective(regStr) && Injective(regBool)
    }

    constructor (env: map<string, string>)
      ensures Valid()
      ensures this.env == env && store == map[] && regStr == map[] && regBool == map[] && !inMain
    {
      this.env := env;
      store := map[];
      regStr := map[];
      regBool := map[];
      inMain := false;
    }

    /** os.Getenv: the empty string for an unset variable. */
    function Getenv(envVar: string): (v: string)
      reads this
      ensures envVar in env ==> v == env[envVar]
      ensures envVar !in env ==> v == ""
    {
      if envVar in env then env[envVar] else ""
    }

    /**
      The init-time guard passes outside init, or once main has started;
      fromInit stands for "some caller frame is a package init function".
     */
    function GuardPasses(fromInit: bool): (passes: bool)
      reads this
      ensures inMain ==> passes
      ensures !inMain ==> (passes <==> !fromInit)
    {
      inMain || !fromInit
    }

    /** noteEnv and noteEnvLocked: apply the store update rule. */
    method NoteEnv(k: string, v: string)
      requires Valid()
      modifies this`store
      ensures Valid()
      ensures store == Noted(old(store), k, v)
    {
      if v != "" {
        store := store[k := v];
      } else {
        store := store - {k};
      }
    }

    /** LogCurrent: the (name, value) lines it logs, one per knob in use, sorted by name. */
    method LogCurrent() returns (lines: seq<(string, string)>)
      requires Valid()
      ensures IsSnapshot(store, lines)
      ensures forall i :: 0 <= i < |lines| ==> lines[i].1 != ""
    {
      var list: seq<string> := [];
      var rest := store.Keys;
      while rest != {}
        invariant rest <= store.Keys
        invariant forall k :: k in store ==> k in list || k in rest
        invariant forall k :: k in list ==> k in store && k !in rest
        invariant Distinct(list)
        decreases rest
      {
        var k :| k in rest;
        list := list + [k];
        rest := rest - {k};
      }
      var sorted := SortStrings(list);
      lines := [];
      for i := 0 to |sorted|
        invariant |lines| == i
        invariant forall j :: 0 <= j < i ==> lines[j].0 == sorted[j] && lines[j].0 in store && lines[j].1 == store[sorted[j]]
      {
        assert sorted[i] in multiset(list);
        lines := lines + [(sorted[i], store[sorted[i]])];
      }
      assert KeysOf(lines) == sorted;
      forall k | k in store ensures k in sorted {
        assert k in multiset(list);
      }
    }

    /** String: the raw value, verbatim, recorded under the store update rule. */
    method String(envVar: string) returns (v: string)
      requires Valid()
      modifies this`store
      ensures Valid()
      ensures v == Getenv(envVar)
      ensures store == Noted(old(store), envVar, v)
    {
      v := Getenv(envVar);
      NoteEnv(envVar, v);
    }

    /**
      RegisterString: the handle already registered for envVar, untouched;
      otherwise a new cell holding the current value, recorded only if it is
      non-empty (an empty value removes nothing).
     */
    method RegisterString(envVar: string) returns (p: StringCell)
      requires Valid()
      modifies this`store, this`regStr
      ensures Valid()
      ensures envVar in regStr && regStr[envVar] == p
      ensures envVar in old(regStr) ==> p == old(regStr)[envVar] && regStr == old(regStr) && store == old(store)
      ensures envVar !in old(regStr) ==> fresh(p) && p.value == Getenv(envVar) && regStr == old(regStr)[envVar := p]
      ensures envVar !in old(regStr) && Getenv(envVar) != "" ==> store == Noted(old(store), envVar, Getenv(envVar))
      ensures Getenv(envVar) == "" ==> store == old(store)
    {
      if envVar in regStr {
        p := regStr[envVar];
      } else {
        var val := Getenv(envVar);
        if val != "" {
          NoteEnv(envVar, val);
        }
        p := new StringCell(val);
        regStr := regStr[envVar := p];
      }
    }

    /**
      setBoolLocked: records the raw value (not its canonical form), then
      stores false for an empty value, the parsed boolean for a valid
      spelling, and false with a fatal outcome for anything else.
     */
    method SetBoolLocked(p: BoolCell, envVar: string, val: string) returns (r: Outcome<()>)
      requires Valid()
      modifies this`store, p`value
      ensures Valid()
      ensures store == Noted(old(store), envVar, val)
      ensures val == "" ==> r == Ok(()) && !p.value
      ensures val in TrueSpellings ==> r == Ok(()) && p.value
      ensures val in FalseSpellings ==> r == Ok(()) && !p.value
      ensures val != "" && val !in TrueSpellings + FalseSpellings ==> r == Fatal(envVar, val) && !p.value
    {
      NoteEnv(envVar, val);
      if val == "" {
        p.value := false;
        return Ok(());
      }
      match ParseBool(val)
      case Some(b) =>
        p.value := b;
        r := Ok(());
      case None =>
        p.value := false;
        r := Fatal(envVar, val);
    }

    /**
      RegisterBool: the handle already registered for envVar, untouched;
      otherwise a new cell set by SetBoolLocked from the current value, and
      registered unless that value was malformed.
     */
    method RegisterBool(envVar: string) returns (r: Outcome<BoolCell>)
      requires Valid()
      modifies this`store, this`regBool
      ensures Valid()
      ensures !r.InitPanic?
      ensures envVar in old(regBool) ==> r == Ok(old(regBool)[envVar]) && regBool == old(regBool) && store == old(store)
      ensures envVar !in old(regBool) ==> store == Noted(old(store), envVar, Getenv(envVar))
      ensures envVar !in old(regBool) ==>
                (r.Ok? <==> Getenv(envVar) == "" || Getenv(envVar) in TrueSpellings + FalseSpellings)
      ensures envVar !in old(regBool) && r.Ok? ==>
                && fresh(r.value)
                && regBool == old(regBool)[envVar := r.value]
                && (r.value.value <==> Getenv(envVar) in TrueSpellings)
      ensures r.Fatal? ==> r == Fatal(envVar, Getenv(envVar)) && regBool == old(regBool)
    {
      if envVar in regBool {
        return Ok(regBool[envVar]);
      }
      var p := new BoolCell();
      var outcome := SetBoolLocked(p, envVar, Getenv(envVar));
      if outcome.Fatal? {
        return Fatal(outcome.knob, outcome.raw);
      }
      regBool := regBool[envVar := p];
      r := Ok(p);
    }

    /**
      boolOr: implicitValue for an absent knob, leaving the store alone; the
      parsed boolean for a valid spelling, recording its canonical form;
      fatal otherwise.
     */
    method BoolOr(fromInit: bool, envVar: string, implicitValue: bool) returns (r: Outcome<bool>)
      requires Valid()
      modifies this`store
      ensures Valid()
      ensures r.InitPanic? <==> !GuardPasses(fromInit)
      ensures !r.InitPanic? ==> r == BoolOrValue(envVar, Getenv(envVar), implicitValue)
      ensures r.Ok? && Getenv(envVar) != "" ==> store == Noted(old(store), envVar, FormatBool(r.value))
      ensures !r.Ok? || Getenv(envVar) == "" ==> store == old(store)
    {
      if !GuardPasses(fromInit) {
        return InitPanic;
      }
      var val := Getenv(envVar);
      if val == "" {
        return Ok(implicitValue);
      }
      match ParseBool(val)
      case Some(b) =>
        NoteEnv(envVar, FormatBool(b));
        r := Ok(b);
      case None =>
        r := Fatal(envVar, val);
    }

    /** Bool: boolOr with false for an absent knob. */
    method Bool(fromInit: bool, envVar: string) returns (r: Outcome<bool>)
      requires Valid()
      modifies this`store
      ensures Valid()
      ensures r.InitPanic? <==> !GuardPasses(fromInit)
      ensures !r.InitPanic? ==> r == BoolOrValue(envVar, Getenv(envVar), false)
      ensures r.Ok? && Getenv(envVar) != "" ==> store == Noted(old(store), envVar, FormatBool(r.value))
      ensures !r.Ok? || Getenv(envVar) == "" ==> store == old(store)
    {
      r := BoolOr(fromInit, envVar, false);
    }

    /** BoolDefaultTrue: boolOr with true for an absent knob. */
    method BoolDefaultTrue(fromInit: bool, envVar: string) returns (r: Outcome<bool>)
      requires Valid()
      modifies this`store
      ensures Valid()
      ensures r.InitPanic? <==> !GuardPasses(fromInit)
      ensures !r.InitPanic? ==> r == BoolOrValue(envVar, Getenv(envVar), true)
      ensures r.Ok? && Getenv(envVar) != "" ==> store == Noted(old(store), envVar, FormatBool(r.value))
      ensures !r.Ok? || Getenv(envVar) == "" ==> store == old(store)
    {
      r := BoolOr(fromInit, envVar, true);
    }

    /**
      LookupBool: (false, false) for an absent knob, (b, true) for a valid
      spelling, fatal otherwise; it records nothing. Its value agrees with
      Bool, and with BoolDefaultTrue wherever the knob is set.
     */
    function LookupBool(fromInit: bool, envVar: string): (r: Outcome<(bool, bool)>)
      reads this
      ensures r.InitPanic? <==> !GuardPasses(fromInit)
      ensures GuardPasses(fromInit) && Getenv(envVar) == "" ==> r == Ok((false, false))
      ensures GuardPasses(fromInit) && Getenv(envVar) in TrueSpellings ==> r == Ok((true, true))
      ensures GuardPasses(fromInit) && Getenv(envVar) in FalseSpellings ==> r == Ok((false, true))
      ensures r.Fatal? <==> GuardPasses(fromInit) && Getenv(envVar) != "" && Getenv(envVar) !in TrueSpellings + FalseSpellings
      ensures r.Fatal? ==> r == Fatal(envVar, Getenv(envVar))
      ensures r.Ok? ==> BoolOrValue(envVar, Getenv(envVar), false) == Ok(r.value.0)
      ensures r.Ok? ==> BoolOrValue(envVar, Getenv(envVar), true) == Ok(r.value.0 || !r.value.1)
    {
      if !GuardPasses(fromInit) then InitPanic
      else
        var val := Getenv(envVar);
        if val == "" then Ok((false, false))
        else match ParseBool(val)
          case Some(b) => Ok((b, true))
          case None => Fatal(envVar, val)
    }

    /** OptBool: unset exactly when LookupBool's ok is false, else the value LookupBool found. */
    function OptBool(fromInit: bool, envVar: string): (r: Outcome<Tristate>)
      reads this
      ensures r.Ok? <==> LookupBool(fromInit, envVar).Ok?
      ensures r.Ok? ==> (r.value == Unset <==> !LookupBool(fromInit, envVar).value.1)
      ensures r.Ok? && r.value.Explicit? ==> r.value.value == LookupBool(fromInit, envVar).value.0
      ensures r.Fatal? <==> LookupBool(fromInit, envVar).Fatal?
      ensures r.Fatal? ==> r == Fatal(envVar, Getenv(envVar))
      ensures r.InitPanic? <==> !GuardPasses(fromInit)
    {
      // OptBool's own init-time check is the same one LookupBool makes first.
      match LookupBool(fromInit, envVar)
      case Ok((b, ok)) => if ok then Ok(Explicit(b)) else Ok(Unset)
      case Fatal(k, v) => Fatal(k, v)
      case InitPanic => InitPanic
    }

    /**
      LookupInt: (0, false) for an absent knob, (n, true) for a valid
      base-10 int, recording the raw text; fatal otherwise.
     */
    method LookupInt(fromInit: bool, envVar: string) returns (r: Outcome<(int, bool)>)
      requires Valid()
      modifies this`store
      ensures Valid()
      ensures r.InitPanic? <==> !GuardPasses(fromInit)
      ensures !r.InitPanic? ==> r == LookupIntValue(envVar, Getenv(envVar))
      ensures r.Ok? && r.value.1 ==> store == Noted(old(store), envVar, Getenv(envVar))
      ensures !(r.Ok? && r.value.1) ==> store == old(store)
    {
      if !GuardPasses(fromInit) {
        return InitPanic;
      }
      var val := Getenv(envVar);
      if val == "" {
        return Ok((0, false));
      }
      match Atoi(val)
      case Some(n) =>
        NoteEnv(envVar, val);
        r := Ok((n, true));
      case None =>
        r := Fatal(envVar, val);
    }

    /**
      CanSSHD: the SSH server may run unless TS_DISABLE_SSH_SERVER is a true
      spelling; a malformed value is fatal.
     */
    method CanSSHD(fromInit: bool) returns (r: Outcome<bool>)
      requires Valid()
      modifies this`store
      ensures Valid()
      ensures r.InitPanic? <==> !GuardPasses(fromInit)
      ensures GuardPasses(fromInit) && Getenv(SSHServerKnob) == "" ==> r == Ok(true) && store == old(store)
      ensures GuardPasses(fromInit) && Getenv(SSHServerKnob) in TrueSpellings ==>
                r == Ok(false) && store == Noted(old(store), SSHServerKnob, "true")
      ensures GuardPasses(fromInit) && Getenv(SSHServerKnob) in FalseSpellings ==>
                r == Ok(true) && store == Noted(old(store), SSHServerKnob, "false")
      ensures r.Fatal? <==>
                GuardPasses(fromInit) && Getenv(SSHServerKnob) != "" && Getenv(SSHServerKnob) !in TrueSpellings + FalseSpellings
      ensures r.Fatal? ==> r == Fatal(SSHServerKnob, Getenv(SSHServerKnob))
      ensures !r.Ok? ==> store == old(store)
    {
      var disabled := Bool(fromInit, SSHServerKnob);
      r := match disabled
        case Ok(b) => Ok(!b)
        case Fatal(k, v) => Fatal(k, v)
        case InitPanic => InitPanic;
    }

    /** SetNoLogsNoSupport: sets TS_NO_LOGS_NO_SUPPORT to "true", so Bool reads it as true. */
    method SetNoLogsNoSupport()
      modifies this`env
      ensures env == old(env)[NoLogsNoSupportKnob := "true"]
      ensures BoolOrValue(NoLogsNoSupportKnob, Getenv(NoLogsNoSupportKnob), false) == Ok(true)
    {
      env := env[NoLogsNoSupportKnob := "true"];
    }

    /** SetInMain: from now on the init-time guard passes for every call. */
    method SetInMain()
      modifies this`inMain
      ensures inMain
      ensures forall fromInit: bool :: GuardPasses(fromInit)
    {
      inMain := true;
    }
  }
}
