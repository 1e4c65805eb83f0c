/**
 * The command-line argument table of the player (`ArgParser`): a registry that
 * maps option names (several aliases per option) to one option record, and a
 * parser that walks `argv`, classifies each token as `--key=value`,
 * `--key [value]`, `-k [value]` or a positional word, fires the option's
 * callback with its value, reports unknown keys and collects positional words.
 *
 * A callback is modelled only by whether it is set; firing it appends an
 * `Invoked` event to the parser's trace, and the "unknown argument" report
 * appends an `Unknown` event.
 */
module ArgTable {
  import opened Options

  /** Index of an option record in the table's list of owned records. */
  type ArgId = nat

  /** One registered option. */
  datatype Arg = Arg(description: string, requiresValue: bool, hasCallback: bool, aliases: set<string>)

  /** What parsing makes observable: a callback call, or an unknown-argument report. */
  datatype Event = Invoked(arg: ArgId, value: string) | Unknown(token: string)

  /** The use parsing makes of one argv token. */
  datatype Role = AsKey | AsValue | AsPositional

  /** How one token reads on its own. */
  datatype Token =
    | Plain                                // a positional word
    | Inline(key: string, value: string)   // --key=value
    | Bare(key: string)                    // --key or -key, possibly followed by a value token

  /** What parsing argv from some index on adds to the positional list and to the trace. */
  datatype Outcome = Outcome(positionals: seq<string>, events: seq<Event>)

  /** Every name in the table refers to an owned record that lists it as an alias. */
  predicate WellFormed(argMap: map<string, ArgId>, args: seq<Arg>) {
    forall k | k in argMap :: argMap[k] < |args| && k in args[argMap[k]].aliases
  }

  /** `token.rfind("--", 0) == 0`: the token begins with two dashes. */
  predicate DoubleDash(token: string) {
    |token| >= 2 && token[0] == '-' && token[1] == '-'
  }

  /**
   * `token.rfind("-", 0) == 0 && token.length() >= 2`: a dash followed by at
   * least one character. Every token that begins with two dashes is one too.
   */
  predicate Dashed(token: string) {
    |token| >= 2 && token[0] == '-'
  }

  /** A name that `-name` keeps as a short option rather than turning into a long one. */
  predicate ShortName(name: string) {
    name != [] && name[0] != '-'
  }

  /** The first position at or after `from` where `c` occurs in `s`. */
  function FindFrom(s: string, c: char, from: nat): (r: Option<nat>)
    requires from <= |s|
    ensures r.Some? ==> from <= r.value < |s| && s[r.value] == c
    decreases |s| - from
  {
    if from == |s| then None
    else if s[from] == c then Some(from)
    else FindFrom(s, c, from + 1)
  }

  /** The first position of `c` in `s`, as `std::string::find` gives it. */
  function IndexOf(s: string, c: char): (r: Option<nat>)
    ensures r.Some? ==> r.value < |s| && s[r.value] == c
  {
    FindFrom(s, c, 0)
  }

  lemma {:induction false} FindFromSound(s: string, c: char, from: nat)
    requires from <= |s|
    ensures var r := FindFrom(s, c, from);
            (r.Some? ==> from <= r.value < |s| && s[r.value] == c && forall k | from <= k < r.value :: s[k] != c) &&
            (r.None? ==> forall k | from <= k < |s| :: s[k] != c)
    decreases |s| - from
  {
    if from < |s| && s[from] != c {
      FindFromSound(s, c, from + 1);
    }
  }

  /** The search finds the first occurrence, and finds nothing only when there is none. */
  lemma IndexOfSound(s: string, c: char)
    ensures var r := IndexOf(s, c);
            (r.Some? ==> r.value < |s| && s[r.value] == c && c !in s[..r.value]) &&
            (r.None? ==> c !in s)
  {
    FindFromSound(s, c, 0);
  }

  /**
   * Classifies a token the way the parser's branches do: a `--` prefix makes a
   * long option split at the first `=`, otherwise a leading `-` on a token of
   * two or more characters makes the whole remainder the key, and anything else
   * is a positional word.
   */
  function Scan(token: string): Token {
    if DoubleDash(token) then
      match IndexOf(token, '=')
      case Some(p) =>
        assert token[0] == '-' && token[1] == '-';
        Inline(token[2..p], token[p + 1..])
      case None => Bare(token[2..])
    else if Dashed(token) then Bare(token[1..])
    else Plain
  }

  /**
   * What the classification means: a token is positional exactly when it is
   * not dashed; `--key=value` splits at the first `=`; `--key` keeps a key
   * without `=`; `-key` keeps the whole remainder, which does not start with
   * a dash.
   */
  lemma ScanSound(token: string)
    ensures Scan(token).Plain? <==> !Dashed(token)
    ensures Scan(token).Inline? ==>
              '=' !in Scan(token).key && token == "--" + Scan(token).key + "=" + Scan(token).value
    ensures Scan(token).Bare? ==>
              ('=' !in Scan(token).key && token == "--" + Scan(token).key) ||
              (ShortName(Scan(token).key) && token == "-" + Scan(token).key)
  {
    IndexOfSound(token, '=');
    if DoubleDash(token) {
      match IndexOf(token, '=')
      case Some(p) =>
        assert token[0] == '-' && token[1] == '-';
        assert token == "--" + token[2..p] + "=" + token[p + 1..];
        assert forall j | 0 <= j < |token[2..p]| :: token[2..p][j] == token[..p][j + 2];
      case None =>
        assert token == "--" + token[2..];
    } else if Dashed(token) {
      assert token == "-" + token[1..];
    }
  }

  /** The key names a registered option that wants the following token as its value. */
  predicate TakesValue(argMap: map<string, ArgId>, args: seq<Arg>, key: string)
    requires WellFormed(argMap, args)
  {
    key in argMap && args[argMap[key]].requiresValue
  }

  /** A token that, in key position, swallows the next token as its value. */
  predicate ConsumesNext(argMap: map<string, ArgId>, args: seq<Arg>, token: string)
    requires WellFormed(argMap, args)
  {
    Scan(token).Bare? && TakesValue(argMap, args, Scan(token).key)
  }

  /**
   * What one key occurrence triggers: the option's callback when the key is
   * registered and the callback is set, a report when the key is unknown and
   * non-empty, and nothing otherwise.
   */
  function Dispatch(argMap: map<string, ArgId>, args: seq<Arg>, key: string, value: string, token: string): (e: seq<Event>)
    requires WellFormed(argMap, args)
    ensures |e| <= 1
  {
    if key in argMap then
      var id := argMap[key];
      if args[id].hasCallback then [Invoked(id, value)] else []
    else if key != "" then [Unknown(token)]
    else []
  }

  /**
   * The specification of parsing: what parsing argv from index `i` on adds to
   * the positional list and to the trace. Each visited token adds at most one
   * entry to either.
   */
  function ParseFrom(argMap: map<string, ArgId>, args: seq<Arg>, argv: seq<string>, i: nat): (r: Outcome)
    requires WellFormed(argMap, args)
    ensures i <= |argv| ==> |r.positionals| + |r.events| <= |argv| - i
    decreases |argv| - i
  {
    if i >= |argv| then Outcome([], [])
    else
      var token := argv[i];
      match Scan(token)
      case Plain =>
        var rest := ParseFrom(argMap, args, argv, i + 1);
        Outcome([token] + rest.positionals, rest.events)
      case Inline(key, value) =>
        var rest := ParseFrom(argMap, args, argv, i + 1);
        Outcome(rest.positionals, Dispatch(argMap, args, key, value, token) + rest.events)
      case Bare(key) =>
        if TakesValue(argMap, args, key) && i + 1 < |argv| then
          var rest := ParseFrom(argMap, args, argv, i + 2);
          Outcome(rest.positionals, Dispatch(argMap, args, key, argv[i + 1], token) + rest.events)
        else
          var rest := ParseFrom(argMap, args, argv, i + 1);
          Outcome(rest.positionals, Dispatch(argMap, args, key, "", token) + rest.events)
  }

  /**
   * The role each token from index `i` on plays as parsing walks argv: a
   * non-dashed token is positional; a dashed one is a key, and swallows the
   * token after it as its value when its option requires one.
   */
  function Roles(argMap: map<string, ArgId>, args: seq<Arg>, argv: seq<string>, i: nat): (roles: seq<Role>)
    requires WellFormed(argMap, args)
    ensures |roles| == if i < |argv| then |argv| - i else 0
    decreases |argv| - i
  {
    if i >= |argv| then []
    else if !Dashed(argv[i]) then [AsPositional] + Roles(argMap, args, argv, i + 1)
    else if ConsumesNext(argMap, args, argv[i]) && i + 1 < |argv| then [AsKey, AsValue] + Roles(argMap, args, argv, i + 2)
    else [AsKey] + Roles(argMap, args, argv, i + 1)
  }

  /** The tokens whose role is positional, in their order. */
  function Pick(tokens: seq<string>, roles: seq<Role>): (p: seq<string>)
    requires |tokens| == |roles|
    ensures |p| <= |tokens|
  {
    if tokens == [] then []
    else (if roles[0] == AsPositional then [tokens[0]] else []) + Pick(tokens[1..], roles[1..])
  }

  /** The number of callback calls in a trace. */
  function Invocations(events: seq<Event>): (n: nat)
    ensures n <= |events|
  {
    if events == [] then 0 else (if events[0].Invoked? then 1 else 0) + Invocations(events[1..])
  }

  /** Parsing fires at most one callback per token from argv[1] on. */
  lemma CallbacksBounded(argMap: map<string, ArgId>, args: seq<Arg>, argv: seq<string>)
    requires WellFormed(argMap, args)
    requires |argv| >= 1
    ensures var r := ParseFrom(argMap, args, argv, 1);
            Invocations(r.events) + |r.positionals| <= |argv| - 1
  {
  }

  /**
   * What an event in the trace of parsing argv from index `i` on can be: a
   * call of a registered option whose callback is set, or the report of a
   * dashed token from that part of argv whose key is non-empty and unknown.
   */
  ghost predicate SoundEvent(argMap: map<string, ArgId>, args: seq<Arg>, argv: seq<string>, i: nat, e: Event)
    requires i <= |argv|
  {
    match e
    case Invoked(id, _) => id < |args| && args[id].hasCallback
    case Unknown(token) =>
      token in argv[i..] && !Scan(token).Plain? && Scan(token).key !in argMap && Scan(token).key != ""
  }

  /**
   * No callback is called for an option without one, and only unknown,
   * non-empty keys of tokens actually in argv are reported.
   */
  lemma {:induction false} EventsAreSound(argMap: map<string, ArgId>, args: seq<Arg>, argv: seq<string>, i: nat)
    requires WellFormed(argMap, args)
    requires i <= |argv|
    ensures forall e | e in ParseFrom(argMap, args, argv, i).events :: SoundEvent(argMap, args, argv, i, e)
    decreases |argv| - i
  {
    if i < |argv| {
      var token := argv[i];
      var next := if Scan(token).Bare? && TakesValue(argMap, args, Scan(token).key) && i + 1 < |argv| then i + 2 else i + 1;
      EventsAreSound(argMap, args, argv, next);
      assert token in argv[i..] by { assert argv[i..][0] == token; }
      forall e | e in ParseFrom(argMap, args, argv, next).events
        ensures SoundEvent(argMap, args, argv, i, e)
      {
        assert SoundEvent(argMap, args, argv, next, e);
        if e.Unknown? {
          assert argv[next..] == argv[i..][next - i..];
        }
      }
    }
  }

  /**
   * The positional list is exactly the tokens that play the positional role,
   * in argv order; in particular a token consumed as a value is never positional.
   */
  lemma {:induction false} PositionalsInArgvOrder(argMap: map<string, ArgId>, args: seq<Arg>, argv: seq<string>, i: nat)
    requires WellFormed(argMap, args)
    requires i <= |argv|
    ensures ParseFrom(argMap, args, argv, i).positionals == Pick(argv[i..], Roles(argMap, args, argv, i))
    decreases |argv| - i
  {
    if i < |argv| {
      ScanSound(argv[i]);
      var roles := Roles(argMap, args, argv, i);
      if !Dashed(argv[i]) || !(ConsumesNext(argMap, args, argv[i]) && i + 1 < |argv|) {
        PositionalsInArgvOrder(argMap, args, argv, i + 1);
        assert argv[i..][1..] == argv[i + 1..];
        assert roles[1..] == Roles(argMap, args, argv, i + 1);
      } else {
        PositionalsInArgvOrder(argMap, args, argv, i + 2);
        assert argv[i..][1..][1..] == argv[i + 2..];
        assert roles[1..][1..] == Roles(argMap, args, argv, i + 2);
      }
    }
  }

  /**
   * The rule for the role of the `k`-th visited token: it is a value exactly
   * when the token before it is a key that swallows the next token; any other
   * token is positional exactly when it is not dashed, and a key otherwise.
   */
  ghost predicate RoleRule(argMap: map<string, ArgId>, args: seq<Arg>, argv: seq<string>, i: nat, roles: seq<Role>, k: nat)
    requires WellFormed(argMap, args)
    requires i + |roles| <= |argv| && k < |roles|
  {
    (roles[k] == AsValue <==> 0 < k && roles[k - 1] == AsKey && ConsumesNext(argMap, args, argv[i + k - 1])) &&
    (roles[k] != AsValue ==> (roles[k] == AsPositional <==> !Dashed(argv[i + k])))
  }

  /** Every token gets the role the local rule gives it. */
  lemma {:induction false} RolesFollowTokens(argMap: map<string, ArgId>, args: seq<Arg>, argv: seq<string>, i: nat)
    requires WellFormed(argMap, args)
    requires i <= |argv|
    ensures forall k | 0 <= k < |Roles(argMap, args, argv, i)| ::
              RoleRule(argMap, args, argv, i, Roles(argMap, args, argv, i), k)
    decreases |argv| - i
  {
    if i < |argv| {
      var roles := Roles(argMap, args, argv, i);
      var next := if Dashed(argv[i]) && ConsumesNext(argMap, args, argv[i]) && i + 1 < |argv| then i + 2 else i + 1;
      RolesFollowTokens(argMap, args, argv, next);
      var rest := Roles(argMap, args, argv, next);
      var d := next - i;
      assert roles[d..] == rest;
      assert RoleRule(argMap, args, argv, i, roles, 0);
      if d == 2 {
        assert RoleRule(argMap, args, argv, i, roles, 1);
      }
      forall k | d < k < |roles|
        ensures RoleRule(argMap, args, argv, i, roles, k)
      {
        RoleRuleShifts(argMap, args, argv, i, d, roles, k);
      }
      if d < |roles| {
        assert RoleRule(argMap, args, argv, next, rest, 0);
        assert roles[d] == rest[0] && argv[i + d] == argv[next];
      }
    }
  }

  /** The role rule at position `k` only looks at positions `k - 1` and `k`, so it survives a shift. */
  lemma RoleRuleShifts(argMap: map<string, ArgId>, args: seq<Arg>, argv: seq<string>, i: nat, d: nat, roles: seq<Role>, k: nat)
    requires WellFormed(argMap, args)
    requires i + |roles| <= |argv| && d < k < |roles|
    requires RoleRule(argMap, args, argv, i + d, roles[d..], k - d)
    ensures RoleRule(argMap, args, argv, i, roles, k)
  {
    assert roles[d..][k - d] == roles[k] && roles[d..][k - d - 1] == roles[k - 1];
    assert (i + d) + (k - d) == i + k;
  }

  /** `--name=value` reads back as that key and value, for a name without `=`. */
  lemma ScanAssignment(name: string, value: string)
    requires '=' !in name
    ensures Scan("--" + name + "=" + value) == Inline(name, value)
  {
    var token := "--" + name + "=" + value;
    var eq := |name| + 2;
    assert DoubleDash(token);
    forall j | 0 <= j < eq
      ensures token[j] != '='
    {
      if j >= 2 { assert token[j] == name[j - 2]; }
    }
    assert token[eq] == '=';
    IndexOfSound(token, '=');
    var p := IndexOf(token, '=');
    assert p.Some? && p.value >= eq;
    assert p.value <= eq;
    assert token[2..p.value] == name;
    assert token[p.value + 1..] == value;
  }

  /** `--name` reads back as a bare key, for a name without `=`. */
  lemma ScanLong(name: string)
    requires '=' !in name
    ensures Scan("--" + name) == Bare(name)
  {
    var token := "--" + name;
    assert DoubleDash(token);
    forall j | 0 <= j < |token|
      ensures token[j] != '='
    {
      if j >= 2 { assert token[j] == name[j - 2]; }
    }
    IndexOfSound(token, '=');
    assert IndexOf(token, '=').None?;
    assert token[2..] == name;
  }

  /** A short option keeps its whole remainder as the key: no bundling, no `=` split. */
  lemma ScanShort(name: string)
    requires ShortName(name)
    ensures Scan("-" + name) == Bare(name)
  {
    var token := "-" + name;
    assert token[1] == name[0];
    assert !DoubleDash(token);
    assert Dashed(token);
    assert token[1..] == name;
  }

  /** For instance `-k=v` is the short option named `k=v`, not `k` with value `v`. */
  lemma ShortOptionKeepsEquals()
    ensures Scan("-k=v") == Bare("k=v")
  {
    ScanShort("k=v");
    assert "-" + "k=v" == "-k=v";
  }

  /** One intended piece of a command line, in one of the spellings the parser accepts. */
  datatype Item =
    | Word(text: string)                       // a positional word
    | Assign(name: string, value: string)      // --name=value
    | LongPair(name: string, value: string)    // --name value
    | ShortPair(name: string, value: string)   // -name value
    | LongSwitch(name: string)                 // --name
    | ShortSwitch(name: string)                // -name
    | Stray(name: string)                      // --name with a name nobody registered
    | StrayAssign(name: string, value: string) // --name=value with a name nobody registered
    | ShortStray(name: string)                 // -name with a name nobody registered

  function RenderItem(it: Item): (tokens: seq<string>)
    ensures 1 <= |tokens| <= 2
  {
    match it
    case Word(text) => [text]
    case Assign(name, value) => ["--" + name + "=" + value]
    case LongPair(name, value) => ["--" + name, value]
    case ShortPair(name, value) => ["-" + name, value]
    case LongSwitch(name) => ["--" + name]
    case ShortSwitch(name) => ["-" + name]
    case Stray(name) => ["--" + name]
    case StrayAssign(name, value) => ["--" + name + "=" + value]
    case ShortStray(name) => ["-" + name]
  }

  /** Spells out a command line, item after item. */
  function Render(items: seq<Item>): (tokens: seq<string>)
    ensures |tokens| >= |items|
  {
    if items == [] then [] else RenderItem(items[0]) + Render(items[1..])
  }

  /** The item is spelled so that the parser reads back what it means. */
  predicate Renderable(argMap: map<string, ArgId>, args: seq<Arg>, it: Item)
    requires WellFormed(argMap, args)
  {
    match it
    case Word(text) => !Dashed(text)
    case Assign(name, _) => '=' !in name && name in argMap
    case LongPair(name, _) => '=' !in name && TakesValue(argMap, args, name)
    case ShortPair(name, _) => ShortName(name) && TakesValue(argMap, args, name)
    case LongSwitch(name) => '=' !in name && name in argMap && !args[argMap[name]].requiresValue
    case ShortSwitch(name) => ShortName(name) && name in argMap && !args[argMap[name]].requiresValue
    case Stray(name) => '=' !in name && name !in argMap
    case StrayAssign(name, _) => '=' !in name && name !in argMap
    case ShortStray(name) => ShortName(name) && name !in argMap
  }

  /** The positional words an intended command line carries. */
  function Words(items: seq<Item>): (words: seq<string>)
    ensures |words| <= |items|
  {
    if items == [] then []
    else (if items[0].Word? then [items[0].text] else []) + Words(items[1..])
  }

  /** The callback a registered option with a set callback receives. */
  function Call(argMap: map<string, ArgId>, args: seq<Arg>, name: string, value: string): seq<Event>
    requires WellFormed(argMap, args)
    requires name in argMap
  {
    if args[argMap[name]].hasCallback then [Invoked(argMap[name], value)] else []
  }

  /** The events one intended item should cause. */
  function ItemEvents(argMap: map<string, ArgId>, args: seq<Arg>, it: Item): seq<Event>
    requires WellFormed(argMap, args)
    requires Renderable(argMap, args, it)
  {
    match it
    case Word(_) => []
    case Assign(name, value) => Call(argMap, args, name, value)
    case LongPair(name, value) => Call(argMap, args, name, value)
    case ShortPair(name, value) => Call(argMap, args, name, value)
    case LongSwitch(name) => Call(argMap, args, name, "")
    case ShortSwitch(name) => Call(argMap, args, name, "")
    case Stray(name) => if name == "" then [] else [Unknown("--" + name)]
    case StrayAssign(name, value) => if name == "" then [] else [Unknown("--" + name + "=" + value)]
    case ShortStray(name) => [Unknown("-" + name)]
  }

  /** The events an intended command line should cause, item by item. */
  function Expected(argMap: map<string, ArgId>, args: seq<Arg>, items: seq<Item>): seq<Event>
    requires WellFormed(argMap, args)
    requires forall it | it in items :: Renderable(argMap, args, it)
  {
    if items == [] then []
    else
      assert items[0] in items;
      ItemEvents(argMap, args, items[0]) + Expected(argMap, args, items[1..])
  }

  /** Parsing the tokens of one intended item, wherever they stand in argv. */
  lemma ParseItem(argMap: map<string, ArgId>, args: seq<Arg>, argv: seq<string>, i: nat, it: Item, j: nat)
    requires WellFormed(argMap, args)
    requires Renderable(argMap, args, it)
    requires j == i + |RenderItem(it)| <= |argv| && argv[i..j] == RenderItem(it)
    ensures ParseFrom(argMap, args, argv, i).positionals
            == (if it.Word? then [it.text] else []) + ParseFrom(argMap, args, argv, j).positionals
    ensures ParseFrom(argMap, args, argv, i).events
            == ItemEvents(argMap, args, it) + ParseFrom(argMap, args, argv, j).events
  {
    assert argv[i] == RenderItem(it)[0];
    match it
    case Word(text) =>
    case Assign(name, value) => ScanAssignment(name, value);
    case LongPair(name, value) => ScanLong(name); assert argv[i + 1] == RenderItem(it)[1];
    case ShortPair(name, value) => ScanShort(name); assert argv[i + 1] == RenderItem(it)[1];
    case LongSwitch(name) => ScanLong(name);
    case ShortSwitch(name) => ScanShort(name);
    case Stray(name) => ScanLong(name);
    case StrayAssign(name, value) => ScanAssignment(name, value);
    case ShortStray(name) => ScanShort(name);
  }

  /**
   * Round trip: parsing a command line spelled out from intended items gives
   * back the items' positional words, in order, and exactly the callback calls
   * and reports the items mean. An `--name=value` item never swallows the next
   * token, even for an option that requires a value.
   */
  lemma {:induction false} ParseRendered(argMap: map<string, ArgId>, args: seq<Arg>, prefix: seq<string>, items: seq<Item>)
    requires WellFormed(argMap, args)
    requires forall it | it in items :: Renderable(argMap, args, it)
    ensures var r := ParseFrom(argMap, args, prefix + Render(items), |prefix|);
            r.positionals == Words(items) && r.events == Expected(argMap, args, items)
    decreases |items|
  {
    var argv := prefix + Render(items);
    var i := |prefix|;
    if items == [] {
      assert argv == prefix;
    } else {
      var it := items[0];
      var next := prefix + RenderItem(it);
      assert argv == next + Render(items[1..]);
      assert forall x | x in items[1..] :: x in items;
      assert it in items;
      ParseRendered(argMap, args, next, items[1..]);
      var j := |next|;
      assert argv[i..j] == RenderItem(it);
      ParseItem(argMap, args, argv, i, it, j);
      assert argv == next + Render(items[1..]);
      assert Words(items) == (if it.Word? then [it.text] else []) + Words(items[1..]);
      assert Expected(argMap, args, items) == ItemEvents(argMap, args, it) + Expected(argMap, args, items[1..]);
    }
  }

  /** The argv a program run with the intended items receives: the program name first. */
  lemma CommandLineRoundTrip(argMap: map<string, ArgId>, args: seq<Arg>, program: string, items: seq<Item>)
    requires WellFormed(argMap, args)
    requires forall it | it in items :: Renderable(argMap, args, it)
    ensures var r := ParseFrom(argMap, args, [program] + Render(items), 1);
            r.positionals == Words(items) && r.events == Expected(argMap, args, items)
  {
    ParseRendered(argMap, args, [program], items);
  }

  /**
   * An option that requires a value but stands last in argv takes nothing
   * from beyond the end: its callback, if set, receives the empty value.
   */
  lemma TrailingOptionGetsEmptyValue(argMap: map<string, ArgId>, args: seq<Arg>, prefix: seq<string>, token: string, name: string)
    requires WellFormed(argMap, args)
    requires ('=' !in name && token == "--" + name) || (ShortName(name) && token == "-" + name)
    requires TakesValue(argMap, args, name)
    ensures ParseFrom(argMap, args, prefix + [token], |prefix|).positionals == []
    ensures ParseFrom(argMap, args, prefix + [token], |prefix|).events == Call(argMap, args, name, "")
  {
    var argv := prefix + [token];
    assert argv[|prefix|] == token;
    if '=' !in name && token == "--" + name {
      ScanLong(name);
    } else {
      ScanShort(name);
    }
  }

  /** One positional word: it joins the positional list and parsing moves on to the next token. */
  lemma PlainStep(argMap: map<string, ArgId>, args: seq<Arg>, argv: seq<string>, i: nat, before: seq<string>)
    requires WellFormed(argMap, args)
    requires i < |argv| && Scan(argv[i]) == Plain
    ensures (before + [argv[i]]) + ParseFrom(argMap, args, argv, i + 1).positionals
            == before + ParseFrom(argMap, args, argv, i).positionals
    ensures ParseFrom(argMap, args, argv, i + 1).events == ParseFrom(argMap, args, argv, i).events
  {
  }

  /**
   * One key occurrence: once parsing has fired what the key dispatches, the
   * trace so far plus what parsing from `next` adds is what it was before.
   */
  lemma KeyStep(argMap: map<string, ArgId>, args: seq<Arg>, argv: seq<string>, i: nat, key: string, value: string, next: nat,
                before: seq<Event>, after: seq<Event>)
    requires WellFormed(argMap, args)
    requires i < |argv|
    requires (Scan(argv[i]) == Inline(key, value) && next == i + 1) ||
             (Scan(argv[i]) == Bare(key) &&
              if TakesValue(argMap, args, key) && i + 1 < |argv| then next == i + 2 && value == argv[i + 1]
              else next == i + 1 && value == "")
    requires after == before + Dispatch(argMap, args, key, value, argv[i])
    ensures ParseFrom(argMap, args, argv, i).positionals == ParseFrom(argMap, args, argv, next).positionals
    ensures after + ParseFrom(argMap, args, argv, next).events == before + ParseFrom(argMap, args, argv, i).events
  {
  }

  /** The argument table: registered options, owned records, collected positionals and the callback trace. */
  class ArgParser {
    var argMap: map<string, ArgId>
    var args: seq<Arg>
    var positionals: seq<string>
    var trace: seq<Event>

    ghost predicate Valid()
      reads this
    {
      WellFormed(argMap, args)
    }

    constructor ()
      ensures Valid()
      ensures argMap == map[] && args == [] && positionals == [] && trace == []
    {
      argMap, args, positionals, trace := map[], [], [], [];
    }

    /**
     * Registers one option under every name in `names`. A name that was
     * already registered now refers to the new option; the record it referred
     * to stays owned by the table.
     */
    method AddOption(names: seq<string>, description: string, requiresValue: bool, hasCallback: bool)
      requires Valid()
      modifies this
      ensures Valid()
      ensures args == old(args) + [Arg(description, requiresValue, hasCallback, set n | n in names)]
      ensures forall k :: k in argMap <==> k in old(argMap) || k in names
      ensures forall n | n in names :: argMap[n] == |old(args)|
      ensures forall k | k in old(argMap) && k !in names :: argMap[k] == old(argMap)[k]
      ensures positionals == old(positionals) && trace == old(trace)
    {
      var id := |args|;
      var arg := Arg(description, requiresValue, hasCallback, set n | n in names);
      var j := 0;
      while j < |names|
        invariant 0 <= j <= |names|
        invariant forall k :: k in argMap <==> k in old(argMap) || k in names[..j]
        invariant forall n | n in names[..j] :: argMap[n] == id
        invariant forall k | k in old(argMap) && k !in names[..j] :: argMap[k] == old(argMap)[k]
        invariant args == old(args) && positionals == old(positionals) && trace == old(trace)
      {
        assert names[..j + 1] == names[..j] + [names[j]];
        argMap := argMap[names[j] := id];
        j := j + 1;
      }
      assert names[..j] == names;
      args := args + [arg];
    }

    /**
     * Walks argv[1..]: each token is a long option (split at its first `=`,
     * or taking the next token as its value when the option requires one), a
     * short option (likewise taking the next token), or a positional word.
     */
    method Parse(argv: seq<string>)
      requires Valid()
      modifies this`positionals, this`trace
      ensures positionals == old(positionals) + ParseFrom(argMap, args, argv, 1).positionals
      ensures trace == old(trace) + ParseFrom(argMap, args, argv, 1).events
    {
      var table, records := argMap, args;
      ghost var spec := ParseFrom(table, records, argv, 1);
      var i := 1;
      while i < |argv|
        invariant 1 <= i
        invariant positionals + ParseFrom(table, records, argv, i).positionals == old(positionals) + spec.positionals
        invariant trace + ParseFrom(table, records, argv, i).events == old(trace) + spec.events
        decreases |argv| - i
      {
        ghost var start := i;
        var token := argv[i];
        var key: string, value: string := "", "";
        if DoubleDash(token) {
          var pos := IndexOf(token, '=');
          if pos.Some? {
            assert token[0] == '-' && token[1] == '-';
            key := token[2..pos.value];
            value := token[pos.value + 1..];
            assert Scan(token) == Inline(key, value);
          } else {
            key := token[2..];
            assert Scan(token) == Bare(key);
            if key in table && records[table[key]].requiresValue && i + 1 < |argv| {
              i := i + 1;
              value := argv[i];
            }
          }
        } else if Dashed(token) {
          key := token[1..];
          assert Scan(token) == Bare(key);
          if key in table && records[table[key]].requiresValue && i + 1 < |argv| {
            i := i + 1;
            value := argv[i];
          }
        } else {
          assert Scan(token) == Plain;
          PlainStep(table, records, argv, i, positionals);
          positionals := positionals + [token];
          i := i + 1;
          continue;
        }
        ghost var before := trace;
        if key in table {
          var id := table[key];
          if records[id].hasCallback {
            trace := trace + [Invoked(id, value)];
          }
        } else if key != "" {
          trace := trace + [Unknown(token)];
        }
        KeyStep(table, records, argv, start, key, value, i + 1, before, trace);
        i := i + 1;
      }
    }
  }
}
