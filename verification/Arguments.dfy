/**
 What the client may hand to a process the service runs as root
 (ipc/ipc.h:75-172, ipc/ipcserverprocess.cpp:30-89).
 */
module Arguments {
  import opened Basics

  /** The enumeration, and every number outside it. */
  datatype Process = Invalid | OpenVPN | Wireguard | Tun2Socks | CertUtil | Unlisted(id: int)

  function ProcessOf(id: int): Process {
    match id
    case 0 => Invalid
    case 1 => OpenVPN
    case 2 => Wireguard
    case 3 => Tun2Socks
    case 4 => CertUtil
    case _ => Unlisted(id)
  }

  /** The file system and QString::toUInt, as the validators see them. */
  datatype Env = Env(isFile: string -> bool, toUInt: string -> Option<nat>)

  datatype Check = Anything | ExistingFile | NonEmpty | LoopbackAndPort
                 | StartsWith(prefix: string) | Equals(text: string)

  predicate Passes(env: Env, check: Check, v: seq<string>) {
    match check
    case Anything => true
    case ExistingFile => |v| == 1 && v[0] != "" && env.isFile(v[0])
    case NonEmpty => |v| == 1 && v[0] != ""
    case LoopbackAndPort =>
      |v| == 2 && (v[0] == "127.0.0.1" || v[0] == "::1") &&
      env.toUInt(v[1]).Some? && 0 < env.toUInt(v[1]).value <= 65535
    case StartsWith(prefix) => |v| > 0 && prefix <= v[0]
    case Equals(text) => |v| > 0 && v[0] == text
  }

  datatype Rule = Rule(values: nat, check: Check)

  function NamedArgs(proc: Process): map<string, Rule> {
    match proc
    case OpenVPN => map["--config" := Rule(1, ExistingFile),
                        "--management" := Rule(2, LoopbackAndPort),
                        "--management-client" := Rule(0, Anything)]
    case Tun2Socks => map["-device" := Rule(1, StartsWith("tun://")), "-proxy" := Rule(1, StartsWith("socks5://"))]
    case CertUtil => map["-f" := Rule(0, Anything), "-importpfx" := Rule(0, Anything), "-p" := Rule(1, NonEmpty)]
    case _ => map[]
  }

  function PositionalArgs(proc: Process): seq<Check> {
    if proc == CertUtil then [ExistingFile, Equals("NoExport")] else []
  }

  // ---------------------------------------------------------------- the grammar

  /** One item of a command line: an option with its values, or a positional argument. */
  datatype Item = Named(name: string, values: seq<string>) | Positional(token: string)

  function Tokens(item: Item): seq<string> {
    match item
    case Named(name, values) => [name] + values
    case Positional(token) => [token]
  }

  function Line(items: seq<Item>): seq<string> {
    if items == [] then [] else Tokens(items[0]) + Line(items[1..])
  }

  /** An item the process accepts when `position` positional arguments have gone before. */
  predicate ItemOk(env: Env, proc: Process, item: Item, position: nat) {
    match item
    case Named(name, values) =>
      name in NamedArgs(proc) && |values| == NamedArgs(proc)[name].values
      && Passes(env, NamedArgs(proc)[name].check, values)
    case Positional(token) =>
      token !in NamedArgs(proc) && position < |PositionalArgs(proc)|
      && Passes(env, PositionalArgs(proc)[position], [token])
  }

  function Advance(item: Item, position: nat): nat { if item.Positional? then position + 1 else position }

  predicate WellFormed(env: Env, proc: Process, items: seq<Item>, position: nat) {
    items == []
    || (ItemOk(env, proc, items[0], position) && WellFormed(env, proc, items[1..], Advance(items[0], position)))
  }

  // ---------------------------------------------------------------- the scanner

  /** What the loop accepts from a point on. */
  predicate Accepts(env: Env, proc: Process, args: seq<string>, position: nat)
    decreases |args|
  {
    args == [] ||
    var token := args[0];
    if token in NamedArgs(proc) then
      var rule := NamedArgs(proc)[token];
      && 1 + rule.values <= |args|
      && Passes(env, rule.check, args[1..1 + rule.values])
      && Accepts(env, proc, args[1 + rule.values..], position)
    else
      && position < |PositionalArgs(proc)|
      && Passes(env, PositionalArgs(proc)[position], [token])
      && Accepts(env, proc, args[1..], position + 1)
  }

  /** The scanner at a point that holds an option, and at one that does not. */
  lemma AcceptsFrom(env: Env, proc: Process, args: seq<string>, i: nat, position: nat)
    requires i < |args|
    ensures args[i] in NamedArgs(proc) ==>
              var rule := NamedArgs(proc)[args[i]];
              Accepts(env, proc, args[i..], position) ==
              (&& i + 1 + rule.values <= |args|
               && Passes(env, rule.check, args[i+1..i+1+rule.values])
               && Accepts(env, proc, args[i+1+rule.values..], position))
    ensures args[i] !in NamedArgs(proc) ==>
              Accepts(env, proc, args[i..], position) ==
              (&& position < |PositionalArgs(proc)|
               && Passes(env, PositionalArgs(proc)[position], [args[i]])
               && Accepts(env, proc, args[i+1..], position + 1))
  {
    hide NamedArgs, PositionalArgs, Passes;
    var here := args[i..];
    assert here[0] == args[i] && here[1..] == args[i+1..];
    if args[i] in NamedArgs(proc) {
      var n := NamedArgs(proc)[args[i]].values;
      if i + 1 + n <= |args| {
        assert here[1..1+n] == args[i+1..i+1+n] && here[1+n..] == args[i+1+n..];
      }
    }
  }

  lemma TakeMore(args: seq<string>, i: nat, n: nat)
    requires i + 1 + n <= |args|
    ensures args[..i] + [args[i]] + args[i+1..i+1+n] == args[..i+1+n]
    ensures args[..i] + [args[i]] == args[..i+1]
  {
  }

  method SanitizeArguments(env: Env, proc: Process, args: seq<string>) returns (sanitized: seq<string>)
    ensures sanitized == Sanitized(env, proc, args)
  {
    hide NamedArgs, PositionalArgs, Passes, Accepts;
    var namedArgs, positionalArgs := NamedArgs(proc), PositionalArgs(proc);
    sanitized := [];
    var positionalIndex := 0;
    var i := 0;
    assert args[0..] == args;
    while i < |args|
      invariant i <= |args| && sanitized == args[..i]
      invariant Accepts(env, proc, args, 0) == Accepts(env, proc, args[i..], positionalIndex)
      decreases |args| - i
    {
      var token := args[i];
      AcceptsFrom(env, proc, args, i, positionalIndex);
      if token in namedArgs {
        var rule := namedArgs[token];
        var values := args[i+1..if i + 1 + rule.values <= |args| then i + 1 + rule.values else |args|];
        if |values| != rule.values {
          return [];
        }
        if !Passes(env, rule.check, values) {
          return [];
        }
        TakeMore(args, i, rule.values);
        sanitized := sanitized + [token] + values;
        i := i + rule.values + 1;
      } else if positionalIndex < |positionalArgs| {
        if !Passes(env, positionalArgs[positionalIndex], [token]) {
          return [];
        }
        TakeMore(args, i, 0);
        sanitized := sanitized + [token];
        positionalIndex := positionalIndex + 1;
        i := i + 1;
      } else {
        return [];
      }
    }
    assert args[..|args|] == args && args[|args|..] == [];
    NothingIsAccepted(env, proc, positionalIndex);
  }

  lemma NothingIsAccepted(env: Env, proc: Process, position: nat)
    ensures Accepts(env, proc, [], position)
  {
  }

  // ---------------------------------------------------------------- scanner and grammar agree

  function Sanitized(env: Env, proc: Process, args: seq<string>): seq<string> {
    if Accepts(env, proc, args, 0) then args else []
  }

  /** Every line of the grammar is accepted. */
  lemma {:induction false} GrammarIsAccepted(env: Env, proc: Process, items: seq<Item>, position: nat)
    requires WellFormed(env, proc, items, position)
    ensures Accepts(env, proc, Line(items), position)
    decreases |items|
  {
    hide NamedArgs, PositionalArgs, Passes;
    if items != [] {
      var item, rest := items[0], Line(items[1..]);
      GrammarIsAccepted(env, proc, items[1..], Advance(item, position));
      var args := Line(items);
      assert args == Tokens(item) + rest;
      match item
      case Named(name, values) =>
        assert args[0] == name && args[1..1 + |values|] == values && args[1 + |values|..] == rest;
      case Positional(token) =>
        assert args[0] == token && args[1..] == rest;
    }
  }

  /** An item the process accepts in front of a well-formed rest. */
  lemma Prepend(env: Env, proc: Process, item: Item, rest: seq<Item>, position: nat)
    requires ItemOk(env, proc, item, position) && WellFormed(env, proc, rest, Advance(item, position))
    ensures WellFormed(env, proc, [item] + rest, position) && Line([item] + rest) == Tokens(item) + Line(rest)
  {
    assert ([item] + rest)[1..] == rest;
  }

  /** Everything accepted is a line of the grammar. */
  lemma {:induction false} AcceptedIsGrammar(env: Env, proc: Process, args: seq<string>,
                                             position: nat) returns (items: seq<Item>)
    requires Accepts(env, proc, args, position)
    ensures WellFormed(env, proc, items, position) && Line(items) == args
    decreases |args|
  {
    hide NamedArgs, PositionalArgs, Passes, WellFormed, Line;
    items := [];
    if args != [] {
      var token := args[0];
      if token in NamedArgs(proc) {
        var n := NamedArgs(proc)[token].values;
        var rest := AcceptedIsGrammar(env, proc, args[1 + n..], position);
        Prepend(env, proc, Named(token, args[1..1 + n]), rest, position);
        items := [Named(token, args[1..1 + n])] + rest;
        assert args == [token] + args[1..1 + n] + args[1 + n..];
      } else {
        var rest := AcceptedIsGrammar(env, proc, args[1..], position + 1);
        Prepend(env, proc, Positional(token), rest, position);
        items := [Positional(token)] + rest;
        assert args == [token] + args[1..];
      }
    } else {
      NothingIsALine(env, proc, position);
    }
  }

  lemma NothingIsALine(env: Env, proc: Process, position: nat)
    ensures WellFormed(env, proc, [], position) && Line([]) == []
  {
  }

  /** The grammar is unambiguous: a line has at most one reading. */
  lemma {:induction false} OneReading(env: Env, proc: Process, a: seq<Item>, b: seq<Item>, position: nat)
    requires WellFormed(env, proc, a, position) && WellFormed(env, proc, b, position) && Line(a) == Line(b)
    ensures a == b
    decreases |a|
  {
    hide NamedArgs, PositionalArgs, Passes;
    if a == [] || b == [] {
      LineEmpty(a);
      LineEmpty(b);
    } else {
      var la, lb := Line(a[1..]), Line(b[1..]);
      var ta, tb := Tokens(a[0]), Tokens(b[0]);
      assert (ta + la)[0] == ta[0] && (tb + lb)[0] == tb[0];
      assert |ta| == |tb|;
      assert ta == (ta + la)[..|ta|] && tb == (tb + lb)[..|ta|];
      assert la == (ta + la)[|ta|..] && lb == (tb + lb)[|ta|..];
      assert a[0] == b[0] by {
        if a[0].Named? { assert a[0].values == ta[1..] && b[0].values == tb[1..]; }
      }
      OneReading(env, proc, a[1..], b[1..], Advance(a[0], position));
      assert a == [a[0]] + a[1..] && b == [b[0]] + b[1..];
    }
  }

  lemma LineEmpty(items: seq<Item>)
    ensures Line(items) == [] <==> items == []
  {
  }

  ghost predicate InGrammar(env: Env, proc: Process, args: seq<string>) {
    exists items :: WellFormed(env, proc, items, 0) && Line(items) == args
  }

  /**
   The sanitizer returns the line unchanged if it is a line of the grammar and
   nothing otherwise; so the result is non-empty exactly for the non-empty
   lines of the grammar, and sanitizing again changes nothing.
   */
  lemma SanitizerDecidesGrammar(env: Env, proc: Process, args: seq<string>)
    ensures Sanitized(env, proc, args) == if InGrammar(env, proc, args) then args else []
    ensures Sanitized(env, proc, args) != [] <==> args != [] && InGrammar(env, proc, args)
    ensures Sanitized(env, proc, Sanitized(env, proc, args)) == Sanitized(env, proc, args)
  {
    if Accepts(env, proc, args, 0) {
      var items := AcceptedIsGrammar(env, proc, args, 0);
    }
    if InGrammar(env, proc, args) {
      var items :| WellFormed(env, proc, items, 0) && Line(items) == args;
      GrammarIsAccepted(env, proc, items, 0);
    }
  }

  // ---------------------------------------------------------------- what each program may be given

  function Concat(groups: seq<seq<string>>): seq<string> {
    if groups == [] then [] else groups[0] + Concat(groups[1..])
  }

  /** A configuration file that exists, the management port of the client on this machine, or the flag for it. */
  predicate OpenVpnOption(env: Env, g: seq<string>) {
    || (|g| == 2 && g[0] == "--config" && g[1] != "" && env.isFile(g[1]))
    || (|g| == 3 && g[0] == "--management" && g[1] in {"127.0.0.1", "::1"} && IsPort(env, g[2]))
    || g == ["--management-client"]
  }

  predicate IsPort(env: Env, text: string) {
    env.toUInt(text).Some? && 1 <= env.toUInt(text).value <= 65535
  }

  /** A tun device, or a SOCKS5 proxy. */
  predicate Tun2SocksOption(g: seq<string>) {
    |g| == 2 && ((g[0] == "-device" && "tun://" <= g[1]) || (g[0] == "-proxy" && "socks5://" <= g[1]))
  }

  /** Two flags, and a password that is not empty. */
  predicate CertUtilOption(g: seq<string>) {
    g == ["-f"] || g == ["-importpfx"] || (|g| == 2 && g[0] == "-p" && g[1] != "")
  }

  /** A token of certutil that is not the name of an option. */
  predicate CertUtilWord(g: seq<string>) {
    |g| == 1 && g[0] !in {"-f", "-importpfx", "-p"}
  }

  /** The words among the groups, in order. */
  function Words(groups: seq<seq<string>>): seq<string> {
    if groups == [] then []
    else if CertUtilWord(groups[0]) then groups[0] + Words(groups[1..])
    else Words(groups[1..])
  }

  /** The certificate file comes first, and after it the one word that may follow it. */
  predicate WordOk(env: Env, word: string, place: nat) {
    (place == 0 && word != "" && env.isFile(word)) || (place == 1 && word == "NoExport")
  }

  predicate CertUtilWords(env: Env, words: seq<string>, position: nat) {
    forall i :: 0 <= i < |words| ==> WordOk(env, words[i], position + i)
  }

  predicate Allowed(env: Env, proc: Process, groups: seq<seq<string>>, position: nat) {
    match proc
    case OpenVPN => forall i :: 0 <= i < |groups| ==> OpenVpnOption(env, groups[i])
    case Tun2Socks => forall i :: 0 <= i < |groups| ==> Tun2SocksOption(groups[i])
    case CertUtil =>
      && (forall i :: 0 <= i < |groups| ==> CertUtilOption(groups[i]) || CertUtilWord(groups[i]))
      && CertUtilWords(env, Words(groups), position)
    case _ => groups == []
  }

  /** The line is made of options and words that the program may be given. */
  ghost predicate Permitted(env: Env, proc: Process, args: seq<string>) {
    exists groups :: Concat(groups) == args && Allowed(env, proc, groups, 0)
  }

  /** The item behind a group of tokens. */
  function ItemOf(proc: Process, g: seq<string>): Item
    requires g != []
  {
    if proc == CertUtil && CertUtilWord(g) then Positional(g[0]) else Named(g[0], g[1..])
  }

  /** An item passes the checks of its program exactly if it is one of those options or words. */
  lemma ItemExactly(env: Env, proc: Process, item: Item, position: nat)
    ensures ItemOk(env, proc, item, position) <==>
            match proc
            case OpenVPN => item.Named? && OpenVpnOption(env, Tokens(item))
            case Tun2Socks => item.Named? && Tun2SocksOption(Tokens(item))
            case CertUtil =>
              (match item
               case Named(_, _) => CertUtilOption(Tokens(item))
               case Positional(t) => CertUtilWord(Tokens(item)) && CertUtilWords(env, [t], position))
            case _ => false
  {
    match item
    case Named(name, values) =>
      var g := Tokens(item);
      assert g[0] == name && g[1..] == values && |g| == 1 + |values|;
      assert |values| == 1 ==> values[0] == g[1];
      assert |values| == 2 ==> values[0] == g[1] && values[1] == g[2];
      assert |values| == 0 ==> g == [name];
    case Positional(t) =>
  }

  lemma WordsOf(env: Env, g: seq<string>, rest: seq<seq<string>>, position: nat)
    ensures Words([g] + rest) == if CertUtilWord(g) then g + Words(rest) else Words(rest)
    ensures CertUtilWord(g) ==>
              (CertUtilWords(env, g + Words(rest), position) <==>
               CertUtilWords(env, g, position) && CertUtilWords(env, Words(rest), position + 1))
  {
    assert ([g] + rest)[1..] == rest;
    if CertUtilWord(g) {
      var more := Words(rest);
      var words := g + more;
      if CertUtilWords(env, words, position) {
        assert WordOk(env, words[0], position);
        forall i | 0 <= i < |more| ensures WordOk(env, more[i], position + 1 + i) {
          assert WordOk(env, words[i+1], position + (i + 1));
        }
      }
    }
  }

  /** One more group in front. */
  lemma AllowedFrom(env: Env, proc: Process, g: seq<string>, rest: seq<seq<string>>, position: nat)
    requires g != []
    ensures var item := ItemOf(proc, g);
            && Tokens(item) == g
            && (Allowed(env, proc, [g] + rest, position) <==>
                ItemOk(env, proc, item, position) && Allowed(env, proc, rest, Advance(item, position)))
  {
    hide ItemOk, IsPort;
    var item, groups := ItemOf(proc, g), [g] + rest;
    assert Tokens(item) == g;
    ItemExactly(env, proc, item, position);
    WordsOf(env, g, rest, position);
    assert groups[0] == g && forall i :: 0 <= i < |rest| ==> groups[i+1] == rest[i];
    assert CertUtilWord(g) ==> [g[0]] == g;
    assert forall i :: 0 < i < |groups| ==> groups[i] == rest[i-1];
  }

  /** Every permitted line is a line of the grammar. */
  lemma {:induction false} AllowedIsGrammar(env: Env, proc: Process, groups: seq<seq<string>>, position: nat)
    returns (items: seq<Item>)
    requires Allowed(env, proc, groups, position)
    ensures WellFormed(env, proc, items, position) && Line(items) == Concat(groups)
    decreases |groups|
  {
    hide ItemOk, Advance, Allowed, WellFormed, Line;
    if groups == [] {
      items := [];
      NothingIsALine(env, proc, position);
    } else {
      var g, rest := groups[0], groups[1..];
      assert groups == [g] + rest;
      NoEmptyGroup(env, proc, groups, position);
      AllowedFrom(env, proc, g, rest, position);
      var more := AllowedIsGrammar(env, proc, rest, Advance(ItemOf(proc, g), position));
      Prepend(env, proc, ItemOf(proc, g), more, position);
      items := [ItemOf(proc, g)] + more;
    }
  }

  lemma NoEmptyGroup(env: Env, proc: Process, groups: seq<seq<string>>, position: nat)
    requires Allowed(env, proc, groups, position) && groups != []
    ensures groups[0] != []
  {
  }

  /** Every line of the grammar is permitted. */
  lemma {:induction false} GrammarIsAllowed(env: Env, proc: Process, items: seq<Item>, position: nat)
    returns (groups: seq<seq<string>>)
    requires WellFormed(env, proc, items, position)
    ensures Allowed(env, proc, groups, position) && Line(items) == Concat(groups)
    decreases |items|
  {
    hide ItemOk, Advance, Allowed, Tokens, ItemOf;
    groups := [];
    if items == [] {
      NothingIsAllowed(env, proc, position);
    } else {
      var more := GrammarIsAllowed(env, proc, items[1..], Advance(items[0], position));
      var g := Tokens(items[0]);
      ItemOfTokens(env, proc, items[0], position);
      AllowedFrom(env, proc, g, more, position);
      groups := [g] + more;
      assert groups[1..] == more;
    }
  }

  lemma NothingIsAllowed(env: Env, proc: Process, position: nat)
    ensures Allowed(env, proc, [], position)
  {
  }

  lemma ItemOfTokens(env: Env, proc: Process, item: Item, position: nat)
    requires ItemOk(env, proc, item, position)
    ensures Tokens(item) != [] && ItemOf(proc, Tokens(item)) == item
  {
    if item.Named? { assert Tokens(item)[1..] == item.values; }
  }

  /**
   The sanitizer returns a line unchanged if it is made of what the program may
   be given, said option by option, and nothing otherwise.
   */
  lemma SanitizerPermitsExactly(env: Env, proc: Process, args: seq<string>)
    ensures InGrammar(env, proc, args) <==> Permitted(env, proc, args)
    ensures Sanitized(env, proc, args) == if Permitted(env, proc, args) then args else []
  {
    hide WellFormed, Line, Concat, Allowed, Sanitized;
    SanitizerDecidesGrammar(env, proc, args);
    if InGrammar(env, proc, args) {
      var items :| WellFormed(env, proc, items, 0) && Line(items) == args;
      var groups := GrammarIsAllowed(env, proc, items, 0);
    }
    if Permitted(env, proc, args) {
      var groups :| Concat(groups) == args && Allowed(env, proc, groups, 0);
      var items := AllowedIsGrammar(env, proc, groups, 0);
    }
  }

  // ---------------------------------------------------------------- the process object

  /** A process that was started. */
  datatype Launch = Launch(program: Process, path: string, arguments: seq<string>)

  datatype ProcessState = ProcessState(program: Process, path: string, arguments: seq<string>, started: seq<Launch>)

  const IDLE := ProcessState(Invalid, "", [], [])

  /** The installed binaries; nothing is permitted for numbers outside the list. */
  type Paths = Process -> string

  function PermittedPath(paths: Paths, proc: Process): string {
    if proc == Invalid || proc.Unlisted? then "" else paths(proc)
  }

  datatype Call = SetProgram(id: int) | SetArguments(env: Env, args: seq<string>) | Start

  function Next(paths: Paths, s: ProcessState, call: Call): ProcessState {
    match call
    case SetProgram(id) => s.(program := ProcessOf(id), path := PermittedPath(paths, ProcessOf(id)), arguments := [])
    case SetArguments(env, args) => s.(arguments := Sanitized(env, s.program, args))
    case Start =>
      if s.path == "" || s.arguments == [] then s
      else s.(started := s.started + [Launch(s.program, s.path, s.arguments)])
  }

  function Run(paths: Paths, calls: seq<Call>): ProcessState {
    if calls == [] then IDLE else Next(paths, Run(paths, calls[..|calls|-1]), calls[|calls|-1])
  }

  /** Non-empty arguments handed over by a call, and accepted for the program as the file system then was. */
  ghost predicate Vetted(calls: seq<Call>, program: Process, args: seq<string>) {
    args != [] &&
    exists i :: 0 <= i < |calls| && calls[i].SetArguments?
                && calls[i].args == args && Permitted(calls[i].env, program, args)
  }

  /** Some call chose the program by its number. */
  ghost predicate Chosen(calls: seq<Call>, program: Process) {
    || (program == OpenVPN && SetProgram(1) in calls)
    || (program == Tun2Socks && SetProgram(3) in calls)
    || (program == CertUtil && SetProgram(4) in calls)
  }

  ghost predicate LaunchOk(paths: Paths, calls: seq<Call>, l: Launch) {
    && Vetted(calls, l.program, l.arguments)
    && Chosen(calls, l.program)
    && l.path == paths(l.program) != ""
  }

  lemma VettedStays(calls: seq<Call>, more: seq<Call>, program: Process, args: seq<string>)
    requires Vetted(calls, program, args) && calls <= more
    ensures Vetted(more, program, args)
  {
    hide Permitted;
    var i :| 0 <= i < |calls| && calls[i].SetArguments?
             && calls[i].args == args && Permitted(calls[i].env, program, args);
    assert more[i] == calls[i];
  }

  lemma OnlyThreeHaveLines(env: Env, proc: Process, args: seq<string>)
    requires args != [] && Permitted(env, proc, args)
    ensures proc in {OpenVPN, Tun2Socks, CertUtil}
  {
    var groups :| Concat(groups) == args && Allowed(env, proc, groups, 0);
  }

  /**
   Under every sequence of calls, every process that was started ran the binary
   of its current program with a line that some call handed over and that was,
   at that call, a non-empty line of that program's grammar; in particular
   Invalid, Wireguard and unlisted programs never start.
   */
  lemma {:induction false} OnlyVettedProcessesStart(paths: Paths, calls: seq<Call>)
    ensures var s := Run(paths, calls);
            && s.path == PermittedPath(paths, s.program)
            && (s.program in {OpenVPN, Tun2Socks, CertUtil} ==> Chosen(calls, s.program))
            && (s.arguments == [] || Vetted(calls, s.program, s.arguments))
            && forall i :: 0 <= i < |s.started| ==> LaunchOk(paths, calls, s.started[i])
  {
    hide Permitted, Sanitized, Vetted;
    if calls != [] {
      var init := calls[..|calls|-1];
      OnlyVettedProcessesStart(paths, init);
      var s, call := Run(paths, init), calls[|calls|-1];
      if s.arguments != [] { VettedStays(init, calls, s.program, s.arguments); }
      forall i | 0 <= i < |s.started| ensures LaunchOk(paths, calls, s.started[i]) {
        VettedStays(init, calls, s.started[i].program, s.started[i].arguments);
      }
      match call
      case SetProgram(id) =>
      case SetArguments(env, args) => AcceptedIsVetted(calls, s.program);
      case Start => if s.arguments != [] { VettedIsPermitted(calls, s.program, s.arguments); }
    }
  }

  lemma AcceptedIsVetted(calls: seq<Call>, program: Process)
    requires calls != [] && calls[|calls|-1].SetArguments?
    ensures var last := calls[|calls|-1];
            var kept := Sanitized(last.env, program, last.args);
            kept == [] || Vetted(calls, program, kept)
  {
    hide Sanitized, Permitted;
    SanitizerPermitsExactly(calls[|calls|-1].env, program, calls[|calls|-1].args);
  }

  lemma VettedIsPermitted(calls: seq<Call>, program: Process, args: seq<string>)
    requires Vetted(calls, program, args)
    ensures program in {OpenVPN, Tun2Socks, CertUtil}
  {
    var i :| 0 <= i < |calls| && calls[i].SetArguments?
             && calls[i].args == args && Permitted(calls[i].env, program, args);
    OnlyThreeHaveLines(calls[i].env, program, args);
  }

  /**
   And they do start: a program chosen by its number and given a line is launched
   with that line if and only if the program is installed and the line is one it
   may be given, and not empty.
   */
  lemma PermittedLineStartsExactly(paths: Paths, s: ProcessState, id: int, env: Env, args: seq<string>)
    ensures var chosen := Next(paths, s, SetProgram(id));
            var t := Next(paths, Next(paths, chosen, SetArguments(env, args)), Start);
            var program := if id == 1 then OpenVPN else if id == 3 then Tun2Socks else CertUtil;
            t.started == if id in {1, 3, 4} && paths(program) != "" && args != [] && Permitted(env, program, args)
                         then s.started + [Launch(program, paths(program), args)] else s.started
  {
    hide Sanitized, Permitted;
    SanitizerPermitsExactly(env, ProcessOf(id), args);
    if args != [] && Permitted(env, ProcessOf(id), args) { OnlyThreeHaveLines(env, ProcessOf(id), args); }
  }

  class IpcServerProcess {
    const paths: Paths
    var program: Process
    var path: string
    var arguments: seq<string>
    ghost var started: seq<Launch>

    ghost function State(): ProcessState
      reads this
    {
      ProcessState(program, path, arguments, started)
    }

    constructor (paths: Paths)
      ensures this.paths == paths && State() == IDLE
    {
      this.paths := paths;
      program, path, arguments := Invalid, "", [];
      started := [];
    }

    method SetProgramId(id: int)
      modifies this
      ensures State() == Next(paths, old(State()), SetProgram(id))
    {
      program := ProcessOf(id);
      path := PermittedPath(paths, program);
      arguments := [];
    }

    method SetArgumentList(env: Env, args: seq<string>)
      modifies this`arguments
      ensures State() == Next(paths, old(State()), SetArguments(env, args))
    {
      arguments := SanitizeArguments(env, program, args);
    }

    method StartProcess()
      modifies this`started
      ensures State() == Next(paths, old(State()), Start)
    {
      if path == "" {
        return;
      }
      if arguments == [] {
        return;
      }
      started := started + [Launch(program, path, arguments)];
    }
  }
}
