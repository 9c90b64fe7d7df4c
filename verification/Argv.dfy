/**
 From a validated profile to the daemon's command line (ctrld/pktlab_ctrld/app.py) and back through the
 daemon's argument loop (dpdkd/src/main.c) and its own checks (dpdkd/src/eal.c, dpdkd/src/ports.c).
 */
module Argv {
  import opened JsonGrammar
  import opened Responses
  import opened Lcores
  import opened RuntimePolicy

  datatype Config = Config(socketPath: string, lcores: string, hugepagesMb: nat, burst: nat, rxQueue: nat, txQueue: nat,
                           mempool: nat, ingress: string, egress: string)

  const DEFAULTS := Config("/run/pktlab/dpdkd.sock", "1", 256, 32, 256, 256, 4096, "dtap0", "dtap1")

  datatype Flag =
    | SocketPath | LcoreList | HugepagesMb | BurstSize | RxQueueSize | TxQueueSize | MempoolSize | IngressName
    | EgressName

  function FlagText(f: Flag): (t: string) {
    match f
    case SocketPath => "--socket-path"
    case LcoreList => "--lcores"
    case HugepagesMb => "--hugepages-mb"
    case BurstSize => "--burst-size"
    case RxQueueSize => "--rx-queue-size"
    case TxQueueSize => "--tx-queue-size"
    case MempoolSize => "--mempool-size"
    case IngressName => "--ingress-port-name"
    case EgressName => "--egress-port-name"
  }

  datatype Word = Known(flag: Flag) | Help | Unknown

  /** The chain of comparisons that tells the options apart. */
  function WordOf(t: string): (w: Word)
    ensures w.Known? ==> t == FlagText(w.flag)
  {
    if t == "--socket-path" then Known(SocketPath)
    else if t == "--lcores" then Known(LcoreList)
    else if t == "--hugepages-mb" then Known(HugepagesMb)
    else if t == "--burst-size" then Known(BurstSize)
    else if t == "--rx-queue-size" then Known(RxQueueSize)
    else if t == "--tx-queue-size" then Known(TxQueueSize)
    else if t == "--mempool-size" then Known(MempoolSize)
    else if t == "--ingress-port-name" then Known(IngressName)
    else if t == "--egress-port-name" then Known(EgressName)
    else if t == "--help" then Help
    else Unknown
  }

  lemma WordOfFlag(f: Flag)
    ensures WordOf(FlagText(f)) == Known(f)
  {
    var t := FlagText(f);
    assert |t| == match f
                  case SocketPath => 13
                  case LcoreList => 8
                  case HugepagesMb => 14
                  case BurstSize => 12
                  case RxQueueSize => 15
                  case TxQueueSize => 15
                  case MempoolSize => 14
                  case IngressName => 19
                  case EgressName => 18;
    assert f.RxQueueSize? ==> t[2] == 'r';
    assert f.TxQueueSize? ==> t[2] == 't';
    assert f.HugepagesMb? ==> t[2] == 'h';
    assert f.MempoolSize? ==> t[2] == 'm';
    assert "--rx-queue-size"[2] == 'r';
    assert "--hugepages-mb"[2] == 'h';
  }

  // ----- numbers -----

  const ULONG_MAX: nat := 0xFFFF_FFFF_FFFF_FFFF
  const UINT32_MAX: nat := 0xFFFF_FFFF

  predicate IsCSpace(c: char) {
    c == ' ' || '\t' <= c <= '\r'
  }

  function SkipSpaces(s: string): (r: string)
    ensures |r| <= |s|
  {
    if s != [] && IsCSpace(s[0]) then SkipSpaces(s[1..]) else s
  }

  /** The longest run of digits at the front. */
  function DigitRun(s: string): (d: string)
    ensures Digits(d) && d <= s && (|d| < |s| ==> !IsDigit(s[|d|]))
  {
    if s != [] && IsDigit(s[0]) then [s[0]] + DigitRun(s[1..]) else []
  }

  /** strtoul in base 10: blanks, a sign, digits; the value saturates, and a minus sign wraps it. */
  function StrToUl(s: string): (r: Option<(nat, string)>) {
    var body := SkipSpaces(s);
    var signed := body != [] && (body[0] == '-' || body[0] == '+');
    var digits := DigitRun(if signed then body[1..] else body);
    if digits == [] then None
    else
      var v := ValueOf(digits);
      var rest := (if signed then body[1..] else body)[|digits|..];
      if v > ULONG_MAX then Some((ULONG_MAX, rest))
      else if signed && body[0] == '-' && v > 0 then Some((ULONG_MAX + 1 - v, rest))
      else Some((v, rest))
  }

  function ParseU32(s: string): (r: Option<nat>)
    ensures r.Some? ==> r.value <= UINT32_MAX
  {
    if s == [] then None
    else
      match StrToUl(s)
      case None => None
      case Some((v, rest)) => if rest != [] || v > UINT32_MAX then None else Some(v)
  }

  lemma {:induction false} DigitRunOfDigits(d: string)
    requires Digits(d)
    ensures DigitRun(d) == d
  {
    if d != [] {
      DigitRunOfDigits(d[1..]);
      assert d == [d[0]] + d[1..];
    }
  }

  /** A run of digits is read as its value exactly when that fits 32 bits. */
  lemma DigitsParse(d: string)
    requires AllDigits(d)
    ensures ParseU32(d) == if ValueOf(d) <= UINT32_MAX then Some(ValueOf(d)) else None
  {
    DigitRunOfDigits(d);
    assert IsDigit(d[0]);
    assert d[|d|..] == [];
  }

  lemma DecParses(n: nat)
    ensures ParseU32(Dec(n)) == if n <= UINT32_MAX then Some(n) else None
  {
    ValueOfDec(n);
    DigitsParse(Dec(n));
  }

  // ----- the argument loop -----

  datatype Outcome = Run(config: Config) | ExitSuccess | ExitFailure

  function Set(c: Config, f: Flag, value: string): (r: Option<Config>) {
    match f
    case SocketPath => Some(c.(socketPath := value))
    case LcoreList => Some(c.(lcores := value))
    case IngressName => Some(c.(ingress := value))
    case EgressName => Some(c.(egress := value))
    case _ =>
      match ParseU32(value)
      case None => None
      case Some(n) => Some(SetNumber(c, f, n))
  }

  function SetNumber(c: Config, f: Flag, n: nat): (r: Config) {
    match f
    case HugepagesMb => c.(hugepagesMb := n)
    case BurstSize => c.(burst := n)
    case RxQueueSize => c.(rxQueue := n)
    case TxQueueSize => c.(txQueue := n)
    case MempoolSize => c.(mempool := n)
    case _ => c
  }

  /** What the arguments left over make of a configuration. */
  function Consume(args: seq<string>, c: Config): (o: Outcome)
    decreases |args|
  {
    if args == [] then Run(c)
    else
      match WordOf(args[0])
      case Unknown => ExitFailure
      case Help => ExitSuccess
      case Known(f) =>
        if |args| == 1 then ExitFailure
        else (
          match Set(c, f, args[1])
          case None => ExitFailure
          case Some(next) => Consume(args[2..], next)
        )
  }

  /** The loop over argv, the index advanced twice for an option with a value. */
  method ParseArguments(argv: seq<string>) returns (o: Outcome)
    requires argv != []
    ensures o == Consume(argv[1..], DEFAULTS)
  {
    var config := DEFAULTS;
    var argi := 1;
    while argi < |argv|
      invariant 1 <= argi <= |argv|
      invariant Consume(argv[argi..], config) == Consume(argv[1..], DEFAULTS)
    {
      assert argv[argi..][0] == argv[argi];
      var word := WordOf(argv[argi]);
      if word.Unknown? {
        return ExitFailure;
      }
      if word.Help? {
        return ExitSuccess;
      }
      if argi + 1 >= |argv| {
        return ExitFailure;
      }
      assert argv[argi..][1] == argv[argi + 1] && argv[argi..][2..] == argv[argi + 2..];
      var next := Set(config, word.flag, argv[argi + 1]);
      if next.None? {
        return ExitFailure;
      }
      config := next.value;
      argi := argi + 2;
    }
    return Run(config);
  }

  // ----- the daemon's own checks -----

  const LCORES_LEN: nat := 64
  const VDEV_ARG_LEN: nat := 128
  const UINT16_MAX: nat := 65535

  predicate EalPrepares(c: Config) {
    && c.lcores != "" && |c.lcores| < LCORES_LEN
    && c.hugepagesMb != 0 && c.hugepagesMb % 2 == 0
    && |"--vdev=net_tap0,iface=" + c.ingress| < VDEV_ARG_LEN
    && |"--vdev=net_tap1,iface=" + c.egress| < VDEV_ARG_LEN
  }

  predicate PortsPrepare(c: Config) {
    && 0 < c.burst <= 256 && 0 < c.rxQueue <= UINT16_MAX && 0 < c.txQueue <= UINT16_MAX && c.mempool != 0
    && c.ingress != "" && c.egress != "" && c.ingress != c.egress
    && |c.ingress| < NAME_LEN && |c.egress| < NAME_LEN
  }

  // ----- rendering -----

  function Flat(pairs: seq<(Flag, string)>): (args: seq<string>) {
    if pairs == [] then [] else [FlagText(pairs[0].0), pairs[0].1] + Flat(pairs[1..])
  }

  function RuntimePairs(p: Profile, ingress: string, egress: string): (pairs: seq<(Flag, string)>) {
    [(LcoreList, p.lcores), (HugepagesMb, Dec(p.hugepagesMb)), (BurstSize, Dec(p.burst)), (RxQueueSize, Dec(p.rxQueue)),
     (TxQueueSize, Dec(p.txQueue)), (MempoolSize, Dec(p.mempool)), (IngressName, ingress), (EgressName, egress)]
  }

  /** The command line the supervisor launches, after the binary's name. */
  function CommandLine(socketPath: string, p: Profile, ingress: string, egress: string): (args: seq<string>) {
    [FlagText(SocketPath), socketPath] + Flat(RuntimePairs(p, ingress, egress))
  }

  /** The configuration a profile stands for. */
  function ConfigOf(socketPath: string, p: Profile, ingress: string, egress: string): (c: Config) {
    Config(socketPath, p.lcores, p.hugepagesMb, p.burst, p.rxQueue, p.txQueue, p.mempool, ingress, egress)
  }

  /** Applies pairs one after the other; None when a value is refused. */
  function SetAll(c: Config, pairs: seq<(Flag, string)>): (r: Option<Config>)
    decreases |pairs|
  {
    if pairs == [] then Some(c)
    else
      match Set(c, pairs[0].0, pairs[0].1)
      case None => None
      case Some(next) => SetAll(next, pairs[1..])
  }

  lemma {:induction false} ConsumeFlat(pairs: seq<(Flag, string)>, c: Config)
    ensures Consume(Flat(pairs), c) == match SetAll(c, pairs) case Some(r) => Run(r) case None => ExitFailure
    decreases |pairs|
  {
    if pairs != [] {
      var args := Flat(pairs);
      WordOfFlag(pairs[0].0);
      assert args[0] == FlagText(pairs[0].0) && args[1] == pairs[0].1 && args[2..] == Flat(pairs[1..]);
      var next := Set(c, pairs[0].0, pairs[0].1);
      if next.Some? {
        ConsumeFlat(pairs[1..], next.value);
      }
    }
  }

  lemma SetAllPair(c: Config, f: Flag, value: string, rest: seq<(Flag, string)>)
    ensures SetAll(c, [(f, value)] + rest) ==
            match Set(c, f, value) case Some(next) => SetAll(next, rest) case None => None
  {
    assert ([(f, value)] + rest)[1..] == rest;
  }

  lemma SetDec(c: Config, f: Flag, n: nat)
    requires n <= UINT32_MAX && !f.SocketPath? && !f.LcoreList? && !f.IngressName? && !f.EgressName?
    ensures Set(c, f, Dec(n)) == Some(SetNumber(c, f, n))
  {
    DecParses(n);
  }

  lemma PairsRebuild(c: Config, p: Profile, ingress: string, egress: string)
    requires p.hugepagesMb <= UINT32_MAX && p.burst <= UINT32_MAX && p.rxQueue <= UINT32_MAX
    requires p.txQueue <= UINT32_MAX && p.mempool <= UINT32_MAX
    ensures SetAll(c, RuntimePairs(p, ingress, egress)) == Some(ConfigOf(c.socketPath, p, ingress, egress))
  {
    var pairs := RuntimePairs(p, ingress, egress);
    var c1 := c.(lcores := p.lcores);
    SetAllPair(c, LcoreList, p.lcores, pairs[1..]);
    assert pairs == [(LcoreList, p.lcores)] + pairs[1..];
    var c2 := SetNumber(c1, HugepagesMb, p.hugepagesMb);
    SetDec(c1, HugepagesMb, p.hugepagesMb);
    SetAllPair(c1, HugepagesMb, Dec(p.hugepagesMb), pairs[2..]);
    assert pairs[1..] == [(HugepagesMb, Dec(p.hugepagesMb))] + pairs[2..];
    var c3 := SetNumber(c2, BurstSize, p.burst);
    SetDec(c2, BurstSize, p.burst);
    SetAllPair(c2, BurstSize, Dec(p.burst), pairs[3..]);
    assert pairs[2..] == [(BurstSize, Dec(p.burst))] + pairs[3..];
    LastPairs(c3, p, ingress, egress);
    assert pairs[3..] == LastRuntimePairs(p, ingress, egress);
  }

  function LastRuntimePairs(p: Profile, ingress: string, egress: string): (pairs: seq<(Flag, string)>) {
    [(RxQueueSize, Dec(p.rxQueue)), (TxQueueSize, Dec(p.txQueue)), (MempoolSize, Dec(p.mempool)),
     (IngressName, ingress), (EgressName, egress)]
  }

  lemma LastPairs(c: Config, p: Profile, ingress: string, egress: string)
    requires p.rxQueue <= UINT32_MAX && p.txQueue <= UINT32_MAX && p.mempool <= UINT32_MAX
    ensures SetAll(c, LastRuntimePairs(p, ingress, egress)) ==
            Some(c.(rxQueue := p.rxQueue, txQueue := p.txQueue, mempool := p.mempool, ingress := ingress,
                    egress := egress))
  {
    var pairs := LastRuntimePairs(p, ingress, egress);
    var c1 := SetNumber(c, RxQueueSize, p.rxQueue);
    SetDec(c, RxQueueSize, p.rxQueue);
    SetAllPair(c, RxQueueSize, Dec(p.rxQueue), pairs[1..]);
    assert pairs == [(RxQueueSize, Dec(p.rxQueue))] + pairs[1..];
    var c2 := SetNumber(c1, TxQueueSize, p.txQueue);
    SetDec(c1, TxQueueSize, p.txQueue);
    SetAllPair(c1, TxQueueSize, Dec(p.txQueue), pairs[2..]);
    assert pairs[1..] == [(TxQueueSize, Dec(p.txQueue))] + pairs[2..];
    var c3 := SetNumber(c2, MempoolSize, p.mempool);
    SetDec(c2, MempoolSize, p.mempool);
    SetAllPair(c2, MempoolSize, Dec(p.mempool), pairs[3..]);
    assert pairs[2..] == [(MempoolSize, Dec(p.mempool))] + pairs[3..];
    SetAllPair(c3, IngressName, ingress, pairs[4..]);
    assert pairs[3..] == [(IngressName, ingress)] + pairs[4..];
    SetAllPair(c3.(ingress := ingress), EgressName, egress, []);
    assert pairs[4..] == [(EgressName, egress)] + [];
  }

  /**
   Rendering an accepted profile and reading it back with the daemon's argument loop gives the same
   configuration. It then passes the daemon's own checks exactly when the core list has fewer than 64
   characters and both port names fewer than 32, which validation does not ask for.
   */
  lemma CommandLineRoundTrip(r: Request, portCount: nat, socketPath: string, ingress: string, egress: string)
    requires Derive(r, portCount).Some? && ingress != "" && egress != "" && ingress != egress
    ensures var p := Derive(r, portCount).value;
            var c := ConfigOf(socketPath, p, ingress, egress);
            && Consume(CommandLine(socketPath, p, ingress, egress), DEFAULTS) == Run(c)
            && (EalPrepares(c) && PortsPrepare(c) <==>
                |p.lcores| < LCORES_LEN && |ingress| < NAME_LEN && |egress| < NAME_LEN)
  {
    var p := Derive(r, portCount).value;
    AcceptedIffInEnvelope(r, portCount);
    var pairs := RuntimePairs(p, ingress, egress);
    var all := [(SocketPath, socketPath)] + pairs;
    assert all[1..] == pairs;
    ConsumeFlat(all, DEFAULTS);
    SetAllPair(DEFAULTS, SocketPath, socketPath, pairs);
    PairsRebuild(DEFAULTS.(socketPath := socketPath), p, ingress, egress);
  }

  function Blanked(n: nat): (s: string)
    ensures |s| == n && Blanks(s)
  {
    seq(n, _ => ' ')
  }

  /**
   Validation accepts core 1 written behind any number of blanks; from 63 blanks on the daemon refuses the profile
   that comes of it.
   */
  lemma LongCoreListRefused(n: nat, socketPath: string)
    ensures var r := Request(Some(Blanked(n) + "1"), None, None, None, None, None);
            && Derive(r, 2).Some? && Derive(r, 2).value.lcores == Blanked(n) + "1"
            && (EalPrepares(ConfigOf(socketPath, Derive(r, 2).value, "a", "b")) <==> n < 63)
  {
    var r := Request(Some(Blanked(n) + "1"), None, None, None, None, None);
    OneCoreParses(Blanked(n));
    EveryQueuePairFits(r);
    AcceptedIffInEnvelope(r, 2);
  }

  lemma OneCoreParses(blanks: string)
    requires Blanks(blanks)
    ensures ParseSpec(blanks + "1") == Parsed([1], None)
  {
    var piece := Piece(blanks, Some(One("1")), "");
    assert [piece][0].item.Some?;
    PrintedSpecParses([piece]);
    assert PieceText(piece) == blanks + "1" + "" == blanks + "1";
    assert Texts([piece]) == [blanks + "1"] + Texts([]) == [blanks + "1"];
    assert Lcores.Print([piece]) == blanks + "1";
    assert ItemIds(One("1")) == [1];
    assert Ids([piece]) == [1] + Ids([]) == [1];
  }

  /** The command line, word by word. */
  lemma CommandLineText(socketPath: string, p: Profile, ingress: string, egress: string)
    ensures CommandLine(socketPath, p, ingress, egress) ==
            ["--socket-path", socketPath, "--lcores", p.lcores, "--hugepages-mb", Dec(p.hugepagesMb),
             "--burst-size", Dec(p.burst), "--rx-queue-size", Dec(p.rxQueue), "--tx-queue-size", Dec(p.txQueue),
             "--mempool-size", Dec(p.mempool), "--ingress-port-name", ingress, "--egress-port-name", egress]
  {
    var pairs := RuntimePairs(p, ingress, egress);
    assert Flat(pairs[8..]) == [];
    FlatPair(pairs, 7);
    FlatPair(pairs, 6);
    FlatPair(pairs, 5);
    FlatPair(pairs, 4);
    FlatPair(pairs, 3);
    FlatPair(pairs, 2);
    FlatPair(pairs, 1);
    FlatPair(pairs, 0);
    assert pairs[0..] == pairs;
  }

  lemma FlatPair(pairs: seq<(Flag, string)>, i: nat)
    requires i < |pairs|
    ensures Flat(pairs[i..]) == [FlagText(pairs[i].0), pairs[i].1] + Flat(pairs[i + 1..])
  {
    assert pairs[i..][1..] == pairs[i + 1..];
  }

  /** Without arguments the daemon runs with defaults that pass its own checks. */
  lemma DefaultsPrepare()
    ensures Consume([], DEFAULTS) ==
            Run(Config("/run/pktlab/dpdkd.sock", "1", 256, 32, 256, 256, 4096, "dtap0", "dtap1"))
    ensures EalPrepares(DEFAULTS) && PortsPrepare(DEFAULTS)
  {
    assert "dtap0"[4] != "dtap1"[4];
  }

  lemma {:induction false} SpacesSkipped(w: string, rest: string)
    requires (forall i :: 0 <= i < |w| ==> IsCSpace(w[i])) && (rest == [] || !IsCSpace(rest[0]))
    ensures SkipSpaces(w + rest) == rest
  {
    if w == [] {
      assert w + rest == rest;
    } else {
      assert (w + rest)[1..] == w[1..] + rest;
      SpacesSkipped(w[1..], rest);
    }
  }

  /** As strtoul has it, blanks in front and a plus sign are allowed, and a minus sign wraps around 64 bits. */
  lemma SignedNumbers(w: string, d: string)
    requires (forall i :: 0 <= i < |w| ==> IsCSpace(w[i])) && AllDigits(d) && ValueOf(d) <= ULONG_MAX
    ensures ParseU32(w + ("+" + d)) == if ValueOf(d) <= UINT32_MAX then Some(ValueOf(d)) else None
    ensures var v := if ValueOf(d) == 0 then 0 else ULONG_MAX + 1 - ValueOf(d);
            ParseU32(w + ("-" + d)) == if v <= UINT32_MAX then Some(v) else None
  {
    SpacesSkipped(w, "+" + d);
    SpacesSkipped(w, "-" + d);
    DigitRunOfDigits(d);
    assert ("+" + d)[1..] == d && ("-" + d)[1..] == d && d[|d|..] == [];
  }

  /** Help ends the program well, an unknown word and an option without its value do not. */
  lemma EarlyExits(rest: seq<string>, c: Config, f: Flag)
    ensures Consume(["--help"] + rest, c) == ExitSuccess
    ensures Consume(["--verbose"] + rest, c) == ExitFailure
    ensures Consume([FlagText(f)], c) == ExitFailure
  {
    WordOfFlag(f);
    assert |"--help"| == 6 && |"--verbose"| == 9 && (["--help"] + rest)[0] == "--help";
    assert (["--verbose"] + rest)[0] == "--verbose";
  }
}
