/**
 * `buildAvrdudeArgs` in main.go and its three call sites (the Flash, Read
 * and Erase buttons): the ordered command line handed to avrdude.
 */
module AvrdudeArgs {
  import opened Wrappers

  /** `filepath.Join("avrdude", "avrdude.conf")` with a `/` separator. */
  const DefaultConfPath: string := "avrdude/avrdude.conf"
  /** The placeholder the serial-port list shows when no port was found. */
  const NoPortsSentinel: string := "<no ports found>"
  /** avrdude's name for standard input/output in a `-U` operation. */
  const StdioPath: string := "-"
  /** The global flags, in the order they are emitted. */
  const FlagOrder: seq<string> := ["-F", "-V", "-D", "-e", "-n"]

  /** The three buttons of the window. */
  datatype Operation = Write | Read | Erase

  /** A format string with a single `%s` verb: `prefix + "%s" + suffix`. */
  datatype Template = Template(prefix: string, suffix: string)

  /** The form state read by every button: the arguments of `buildAvrdudeArgs` after the template. */
  datatype Request = Request(
    port: string,
    programmer: string,
    chip: string,
    hexfile: string,
    confOverride: string,
    force: bool,
    disableVerify: bool,
    disableErase: bool,
    eraseEEPROM: bool,
    doNotWrite: bool,
    verbosity: string,
    baud: string)

  /** The configuration file passed with `-C`. */
  function ConfPath(confOverride: string): (path: string)
    ensures path != ""
    ensures confOverride != "" ==> path == confOverride
    ensures confOverride == "" ==> path == DefaultConfPath
  {
    if confOverride == "" then DefaultConfPath else confOverride
  }

  /** How many `-v` tokens a verbosity choice asks for: only "1" to "4" count. */
  function VerbosityLevel(verbosity: string): (n: nat)
    ensures n <= 4
    ensures n == 0 <==> verbosity !in {"1", "2", "3", "4"}
    ensures n > 0 ==> verbosity == [('0' as int + n) as char]
  {
    if verbosity == "1" then 1
    else if verbosity == "2" then 2
    else if verbosity == "3" then 3
    else if verbosity == "4" then 4
    else 0
  }

  function Repeat(token: string, n: nat): (r: seq<string>)
    ensures |r| == n
    ensures forall i :: 0 <= i < n ==> r[i] == token
  {
    if n == 0 then [] else [token] + Repeat(token, n - 1)
  }

  lemma FlagsDistinct(i: nat, j: nat)
    requires i < |FlagOrder| && j < |FlagOrder| && i != j
    ensures FlagOrder[i] != FlagOrder[j]
  {
    assert FlagOrder[i][1] != FlagOrder[j][1];
  }

  /** The five check boxes, in the order of `FlagOrder`. */
  function Ticks(r: Request): (ticks: seq<bool>)
    ensures |ticks| == |FlagOrder|
  {
    [r.force, r.disableVerify, r.disableErase, r.eraseEEPROM, r.doNotWrite]
  }

  /** The positions `k..` of `FlagOrder` whose box is ticked, ascending. */
  function Ticked(ticks: seq<bool>, k: nat): (idx: seq<nat>)
    requires k <= |FlagOrder| == |ticks|
    ensures forall i :: 0 <= i < |idx| ==> k <= idx[i] < |FlagOrder|
    ensures forall i, j :: 0 <= i < j < |idx| ==> idx[i] < idx[j]
    ensures forall j :: k <= j < |FlagOrder| ==> (j in idx <==> ticks[j])
    decreases |FlagOrder| - k
  {
    if k == |FlagOrder| then [] else (if ticks[k] then [k] else []) + Ticked(ticks, k + 1)
  }

  /** The flag tokens at the positions `idx`. */
  function Tokens(idx: seq<nat>): (flags: seq<string>)
    requires forall i :: 0 <= i < |idx| ==> idx[i] < |FlagOrder|
    ensures |flags| == |idx|
    ensures forall i :: 0 <= i < |idx| ==> flags[i] == FlagOrder[idx[i]]
  {
    seq(|idx|, i requires 0 <= i < |idx| => FlagOrder[idx[i]])
  }

  /** `[token]` when `ticked`, nothing otherwise. */
  function Opt(ticked: bool, token: string): seq<string>
  {
    if ticked then [token] else []
  }

  /** The ticked flags among `FlagOrder[k..]`, emitted one `if` at a time. */
  function FlagsFrom(ticks: seq<bool>, k: nat): seq<string>
    requires k <= |FlagOrder| == |ticks|
    decreases |FlagOrder| - k
  {
    if k == |FlagOrder| then [] else Opt(ticks[k], FlagOrder[k]) + FlagsFrom(ticks, k + 1)
  }

  /** The emitted flags are exactly `FlagOrder` restricted to the ticked positions. */
  lemma {:induction false} FlagsFromTicked(ticks: seq<bool>, k: nat)
    requires k <= |FlagOrder| == |ticks|
    ensures FlagsFrom(ticks, k) == Tokens(Ticked(ticks, k))
    decreases |FlagOrder| - k
  {
    if k < |FlagOrder| {
      FlagsFromTicked(ticks, k + 1);
      var later := Ticked(ticks, k + 1);
      if ticks[k] {
        TokensCons(k, later);
      } else {
        assert Ticked(ticks, k) == later;
      }
    }
  }

  /** Naming one more flag in front adds its token in front. */
  lemma TokensCons(k: nat, idx: seq<nat>)
    requires k < |FlagOrder|
    requires forall i :: 0 <= i < |idx| ==> idx[i] < |FlagOrder|
    ensures Tokens([k] + idx) == [FlagOrder[k]] + Tokens(idx)
  {
    var lhs, rhs := Tokens([k] + idx), [FlagOrder[k]] + Tokens(idx);
    forall i | 0 <= i < |lhs|
      ensures lhs[i] == rhs[i]
    {
      if i > 0 {
        assert ([k] + idx)[i] == idx[i - 1];
      }
    }
  }

  /** A flag's token is among the tokens exactly when its index is among the indices. */
  lemma TokensMention(idx: seq<nat>, j: nat)
    requires j < |FlagOrder|
    requires forall i :: 0 <= i < |idx| ==> idx[i] < |FlagOrder|
    ensures FlagOrder[j] in Tokens(idx) <==> j in idx
  {
    var flags := Tokens(idx);
    if FlagOrder[j] in flags {
      var i :| 0 <= i < |flags| && flags[i] == FlagOrder[j];
      if idx[i] != j {
        FlagsDistinct(idx[i], j);
      }
    }
    if j in idx {
      var i :| 0 <= i < |idx| && idx[i] == j;
      assert flags[i] == FlagOrder[j];
    }
  }

  /** The global flags of the advanced options, as the five independent `if`s produce them. */
  function FlagTokens(r: Request): seq<string>
  {
    Opt(r.force, "-F") + Opt(r.disableVerify, "-V") + Opt(r.disableErase, "-D")
      + Opt(r.eraseEEPROM, "-e") + Opt(r.doNotWrite, "-n")
  }

  /** The flags appear in the fixed order, and each exactly when its box is ticked. */
  lemma FlagTokensSpec(r: Request)
    ensures FlagTokens(r) == Tokens(Ticked(Ticks(r), 0))
    ensures forall j :: 0 <= j < |FlagOrder| ==> (FlagOrder[j] in FlagTokens(r) <==> Ticks(r)[j])
  {
    var idx := Ticked(Ticks(r), 0);
    FlagsUnrolled(r);
    FlagsFromTicked(Ticks(r), 0);
    forall j | 0 <= j < |FlagOrder|
      ensures FlagOrder[j] in FlagTokens(r) <==> Ticks(r)[j]
    {
      TokensMention(idx, j);
    }
  }


  /** The five `if`s emit the ticked entries of `FlagOrder`, in order. */
  lemma FlagsUnrolled(r: Request)
    ensures FlagTokens(r) == FlagsFrom(Ticks(r), 0)
  {
    var t := Ticks(r);
    var f, v, d, e, n := Opt(r.force, "-F"), Opt(r.disableVerify, "-V"), Opt(r.disableErase, "-D"),
                         Opt(r.eraseEEPROM, "-e"), Opt(r.doNotWrite, "-n");
    assert FlagOrder[0] == "-F" && FlagOrder[1] == "-V" && FlagOrder[2] == "-D";
    assert FlagOrder[3] == "-e" && FlagOrder[4] == "-n";
    assert FlagsFrom(t, 5) == [];
    assert FlagsFrom(t, 4) == n + [] == n;
    assert FlagsFrom(t, 3) == e + n;
    assert FlagsFrom(t, 2) == d + (e + n);
    AppendAssoc(d, e, n);
    assert FlagsFrom(t, 1) == v + ((d + e) + n);
    AppendAssoc(v, d + e, n);
    AppendAssoc(v, d, e);
    assert FlagsFrom(t, 0) == f + (((v + d) + e) + n);
    AppendAssoc(f, (v + d) + e, n);
    AppendAssoc(f, v + d, e);
    AppendAssoc(f, v, d);
  }

  /** Whether a real serial port was chosen. */
  predicate PortSelected(port: string)
  {
    port != "" && port != NoPortsSentinel
  }

  /** `key value`, or nothing when the value is empty. */
  function Pair(key: string, value: string): seq<string>
  {
    if value == "" then [] else [key, value]
  }

  /** `-P port` exactly when a real port is selected; never the placeholder. */
  function PortTokens(port: string): (tokens: seq<string>)
    ensures NoPortsSentinel !in tokens
    ensures tokens != [] <==> PortSelected(port)
    ensures PortSelected(port) ==> tokens == ["-P", port]
  {
    if PortSelected(port) then ["-P", port] else []
  }

  /** The `-U` token: the template with the hex path, or `-` when none was given. */
  function OperationToken(t: Template, hexfile: string): (token: string)
    ensures hexfile != "" ==> token == t.prefix + hexfile + t.suffix
    ensures hexfile == "" ==> token == t.prefix + StdioPath + t.suffix
  {
    t.prefix + (if hexfile == "" then StdioPath else hexfile) + t.suffix
  }

  function OperationTokens(writeTemplate: Option<Template>, hexfile: string): seq<string>
  {
    match writeTemplate
    case None => []
    case Some(t) => [OperationToken(t, hexfile)]
  }

  /** The port, baud, programmer and chip options, each only when given. */
  function ConnectionTokens(r: Request): seq<string>
  {
    PortTokens(r.port) + Pair("-b", r.baud) + Pair("-c", r.programmer) + Pair("-p", r.chip)
  }

  /** The argument list `buildAvrdudeArgs` returns, one group after the other. */
  function ArgList(writeTemplate: Option<Template>, r: Request): seq<string>
  {
    ["-C", ConfPath(r.confOverride)] + Repeat("-v", VerbosityLevel(r.verbosity))
      + FlagTokens(r) + ConnectionTokens(r) + OperationTokens(writeTemplate, r.hexfile)
  }

  /**
   * Regrouping of concatenations. Dafny knows this fact; calling the lemma
   * names the regrouped terms, which keeps the proofs that use it cheap.
   */
  lemma AppendAssoc(a: seq<string>, b: seq<string>, c: seq<string>)
    ensures (a + b) + c == a + (b + c)
  {
  }

  /** `buildAvrdudeArgs`: successive appends to a local slice, section by section. */
  method BuildAvrdudeArgs(writeTemplate: Option<Template>, r: Request) returns (args: seq<string>)
    ensures args == ArgList(writeTemplate, r)
  {
    var confPath := r.confOverride;
    if confPath == "" {
      confPath := DefaultConfPath;
    }

    ghost var head := ["-C", ConfPath(r.confOverride)];

    args := [];
    args := args + ["-C", confPath];
    assert args == head;
    args := AppendVerbosity(args, r.verbosity);
    args := AppendGlobalFlags(args, r);
    args := AppendConnection(args, r);
    args := AppendOperation(args, writeTemplate, r.hexfile);
  }

  /** Verbosity: "1" to "4" append that many `-v`; anything else appends nothing. */
  method AppendVerbosity(args: seq<string>, verbosity: string) returns (out: seq<string>)
    ensures out == args + Repeat("-v", VerbosityLevel(verbosity))
  {
    out := args;
    if verbosity != "" && verbosity != "0" {
      if verbosity == "1" {
        out := out + ["-v"];
      } else if verbosity == "2" {
        out := out + ["-v", "-v"];
      } else if verbosity == "3" {
        out := out + ["-v", "-v", "-v"];
      } else if verbosity == "4" {
        out := out + ["-v", "-v", "-v", "-v"];
      }
    }
  }

  /** The five global flags of the advanced options, each appended when ticked. */
  method AppendGlobalFlags(args: seq<string>, r: Request) returns (out: seq<string>)
    ensures out == args + FlagTokens(r)
  {
    out := args;
    if r.force {
      out := out + ["-F"];
    }
    ghost var flags := Opt(r.force, "-F");
    assert out == args + flags;
    if r.disableVerify {
      out := out + ["-V"];
    }
    AppendAssoc(args, flags, Opt(r.disableVerify, "-V"));
    flags := flags + Opt(r.disableVerify, "-V");
    assert out == args + flags;
    if r.disableErase {
      out := out + ["-D"];
    }
    AppendAssoc(args, flags, Opt(r.disableErase, "-D"));
    flags := flags + Opt(r.disableErase, "-D");
    assert out == args + flags;
    if r.eraseEEPROM {
      out := out + ["-e"];
    }
    AppendAssoc(args, flags, Opt(r.eraseEEPROM, "-e"));
    flags := flags + Opt(r.eraseEEPROM, "-e");
    assert out == args + flags;
    if r.doNotWrite {
      out := out + ["-n"];
    }
    AppendAssoc(args, flags, Opt(r.doNotWrite, "-n"));
    flags := flags + Opt(r.doNotWrite, "-n");
    assert out == args + flags;
  }

  /** Port (unless empty or the placeholder), baud, programmer and chip. */
  method AppendConnection(args: seq<string>, r: Request) returns (out: seq<string>)
    ensures out == args + ConnectionTokens(r)
  {
    out := args;
    if r.port != "" && r.port != NoPortsSentinel {
      out := out + ["-P", r.port];
    }
    ghost var tokens := PortTokens(r.port);
    assert out == args + tokens;
    if r.baud != "" {
      out := out + ["-b", r.baud];
    }
    AppendAssoc(args, tokens, Pair("-b", r.baud));
    tokens := tokens + Pair("-b", r.baud);
    assert out == args + tokens;
    if r.programmer != "" {
      out := out + ["-c", r.programmer];
    }
    AppendAssoc(args, tokens, Pair("-c", r.programmer));
    tokens := tokens + Pair("-c", r.programmer);
    assert out == args + tokens;
    if r.chip != "" {
      out := out + ["-p", r.chip];
    }
    AppendAssoc(args, tokens, Pair("-p", r.chip));
    tokens := tokens + Pair("-p", r.chip);
    assert out == args + tokens;
  }

  /** The operation token, appended only when there is a template. */
  method AppendOperation(args: seq<string>, writeTemplate: Option<Template>, hexfile: string)
    returns (out: seq<string>)
    ensures out == args + OperationTokens(writeTemplate, hexfile)
  {
    out := args;
    var path := hexfile;
    if writeTemplate.Some? {
      if path == "" {
        path := StdioPath;
      }
      out := out + [writeTemplate.value.prefix + path + writeTemplate.value.suffix];
    }
  }

  /** The template each button passes. */
  function ButtonTemplate(op: Operation): (t: Option<Template>)
    ensures op == Erase <==> t.None?
  {
    match op
    case Write => Some(Template("-Uflash:w:", ":i"))
    case Read => Some(Template("-Uflash:r:", ":i"))
    case Erase => None
  }

  /** The request each button passes: Erase drops the hex path and forces `-e`. */
  function ButtonRequest(op: Operation, form: Request): (r: Request)
    ensures op != Erase ==> r == form
    ensures op == Erase ==> r == form.(hexfile := "", eraseEEPROM := true)
  {
    if op == Erase then form.(hexfile := "", eraseEEPROM := true) else form
  }

  /** A button press: the arguments built from the current form. */
  method ButtonArgs(op: Operation, form: Request) returns (args: seq<string>)
    ensures args == ArgList(ButtonTemplate(op), ButtonRequest(op, form))
  {
    match op
    case Write =>
      args := BuildAvrdudeArgs(Some(Template("-Uflash:w:", ":i")), form);
    case Read =>
      args := BuildAvrdudeArgs(Some(Template("-Uflash:r:", ":i")), form);
    case Erase =>
      args := BuildAvrdudeArgs(None, form.(hexfile := "", eraseEEPROM := true));
  }

  // Reading an argument list back: the inverse of ArgList.

  /** What an argument list asks avrdude to do, group by group. */
  datatype Invocation = Invocation(
    confPath: string,
    verbosity: nat,
    ticks: seq<bool>,
    port: Option<string>,
    baud: Option<string>,
    programmer: Option<string>,
    chip: Option<string>,
    operation: Option<string>)

  /** Number of leading copies of `token` in `s`. */
  function RunLength(s: seq<string>, token: string): (n: nat)
    ensures n <= |s|
    ensures forall i :: 0 <= i < n ==> s[i] == token
    ensures n < |s| ==> s[n] != token
  {
    if |s| > 0 && s[0] == token then 1 + RunLength(s[1..], token) else 0
  }

  /** Reads the flags `FlagOrder[k..]`, each optional, in that order. */
  function ParseFlags(s: seq<string>, k: nat): (result: (seq<bool>, seq<string>))
    requires k <= |FlagOrder|
    ensures |result.0| == |FlagOrder| - k
    decreases |FlagOrder| - k
  {
    if k == |FlagOrder| then ([], s)
    else
      var present := |s| > 0 && s[0] == FlagOrder[k];
      var (ticks, rest) := ParseFlags(if present then s[1..] else s, k + 1);
      ([present] + ticks, rest)
  }

  /**
   * Index of the first flag in `FlagOrder`, where reading the flags starts.
   * A named constant rather than a literal `0`, so that the verifier does not
   * unroll `ParseFlags` over all five flags wherever it is called.
   */
  const FirstFlag: nat := 0

  /** Reads an optional `key value` pair. */
  function TakeOption(s: seq<string>, key: string): (Option<string>, seq<string>)
  {
    if |s| >= 2 && s[0] == key then (Some(s[1]), s[2..]) else (None, s)
  }

  /** Reads the port, baud, programmer and chip pairs, then at most one operation token. */
  function ParseConnection(confPath: string, verbosity: nat, ticks: seq<bool>, s: seq<string>)
    : (parsed: Option<Invocation>)
    ensures parsed.Some? ==> parsed.value.ticks == ticks && parsed.value.verbosity == verbosity
  {
    var (port, s2) := TakeOption(s, "-P");
    var (baud, s3) := TakeOption(s2, "-b");
    var (programmer, s4) := TakeOption(s3, "-c");
    var (chip, s5) := TakeOption(s4, "-p");
    if |s5| > 1 then None
    else Some(Invocation(confPath, verbosity, ticks, port, baud, programmer, chip,
                         if s5 == [] then None else Some(s5[0])))
  }

  /** Reads a list in the layout `buildAvrdudeArgs` produces; None when it does not fit. */
  function ParseArgs(args: seq<string>): (parsed: Option<Invocation>)
    ensures parsed.Some? ==> |args| >= 2 && args[0] == "-C" && parsed.value.confPath == args[1]
  {
    if |args| < 2 || args[0] != "-C" then None
    else
      var n := RunLength(args[2..], "-v");
      var flags := ParseFlags(args[2 + n..], FirstFlag);
      ParseConnection(args[1], n, flags.0, flags.1)
  }

  function Given(value: string): Option<string>
  {
    if value == "" then None else Some(value)
  }

  /** What `buildAvrdudeArgs` is meant to convey for a template and a request. */
  function Intended(writeTemplate: Option<Template>, r: Request): Invocation
  {
    Invocation(
      ConfPath(r.confOverride),
      VerbosityLevel(r.verbosity),
      Ticks(r),
      if PortSelected(r.port) then Some(r.port) else None,
      Given(r.baud),
      Given(r.programmer),
      Given(r.chip),
      match writeTemplate
      case None => None
      case Some(t) => Some(OperationToken(t, r.hexfile)))
  }

  /** A template whose token starts with `-U`, as every avrdude memory operation does. */
  predicate IsMemoryOperation(writeTemplate: Option<Template>)
  {
    writeTemplate.Some? ==> |writeTemplate.value.prefix| >= 2
                            && writeTemplate.value.prefix[0] == '-' && writeTemplate.value.prefix[1] == 'U'
  }

  /** No token that may follow the flags is itself `-v` or a flag. */
  predicate NoFlagAhead(s: seq<string>)
  {
    s == [] || (s[0] != "-v" && s[0] !in FlagOrder)
  }

  /** `s` cannot be read as starting with a `key value` pair. */
  predicate NoPairAhead(s: seq<string>, key: string)
  {
    |s| <= 1 || s[0] != key
  }

  lemma OperationTokenShape(t: Template, hexfile: string)
    requires IsMemoryOperation(Some(t))
    ensures var token := OperationToken(t, hexfile);
      |token| >= 2 && token[1] == 'U' && token != "-v" && token !in FlagOrder
  {
    var token := OperationToken(t, hexfile);
    assert token[1] == t.prefix[1];
    forall j | 0 <= j < |FlagOrder|
      ensures token != FlagOrder[j]
    {
      assert FlagOrder[j][1] != 'U';
    }
  }

  lemma {:induction false} RunLengthOfRepeat(token: string, n: nat, tail: seq<string>)
    requires tail == [] || tail[0] != token
    ensures RunLength(Repeat(token, n) + tail, token) == n
    decreases n
  {
    if n > 0 {
      assert (Repeat(token, n) + tail)[1..] == Repeat(token, n - 1) + tail;
      RunLengthOfRepeat(token, n - 1, tail);
    }
  }

  /** Every flag `FlagsFrom(ticks, k)` emits lies at a position `k..` of `FlagOrder`. */
  lemma FlagsFromRange(ticks: seq<bool>, k: nat)
    requires k <= |FlagOrder| == |ticks|
    ensures forall i :: 0 <= i < |FlagsFrom(ticks, k)| ==>
      exists j :: k <= j < |FlagOrder| && FlagsFrom(ticks, k)[i] == FlagOrder[j]
  {
    FlagsFromTicked(ticks, k);
    var idx := Ticked(ticks, k);
    forall i | 0 <= i < |FlagsFrom(ticks, k)|
      ensures exists j :: k <= j < |FlagOrder| && FlagsFrom(ticks, k)[i] == FlagOrder[j]
    {
      assert FlagsFrom(ticks, k)[i] == FlagOrder[idx[i]];
    }
  }

  /** After the flags from position `k + 1` on, nothing can be read as `FlagOrder[k]`. */
  lemma LaterFlagsDiffer(ticks: seq<bool>, k: nat, tail: seq<string>)
    requires k < |FlagOrder| == |ticks|
    requires tail == [] || tail[0] !in FlagOrder
    ensures var s := FlagsFrom(ticks, k + 1) + tail; s == [] || s[0] != FlagOrder[k]
  {
    var rest := FlagsFrom(ticks, k + 1);
    if rest != [] {
      FlagsFromRange(ticks, k + 1);
      var j :| k + 1 <= j < |FlagOrder| && rest[0] == FlagOrder[j];
      FlagsDistinct(j, k);
      assert (rest + tail)[0] == rest[0];
    }
  }

  lemma {:induction false} ParseFlagsOf(ticks: seq<bool>, k: nat, tail: seq<string>)
    requires k <= |FlagOrder| == |ticks|
    requires tail == [] || tail[0] !in FlagOrder
    ensures ParseFlags(FlagsFrom(ticks, k) + tail, k) == (ticks[k..], tail)
    decreases |FlagOrder| - k
  {
    if k == |FlagOrder| {
      assert FlagsFrom(ticks, k) + tail == tail;
      assert ticks[k..] == [];
    } else {
      ParseFlagsOf(ticks, k + 1, tail);
      ParseFlagStep(ticks, k, tail);
    }
  }

  /** One step of `ParseFlags`: flag `k` is read back as ticked exactly when it was emitted. */
  lemma ParseFlagStep(ticks: seq<bool>, k: nat, tail: seq<string>)
    requires k < |FlagOrder| == |ticks|
    requires tail == [] || tail[0] !in FlagOrder
    requires ParseFlags(FlagsFrom(ticks, k + 1) + tail, k + 1) == (ticks[k + 1..], tail)
    ensures ParseFlags(FlagsFrom(ticks, k) + tail, k) == (ticks[k..], tail)
  {
    var later := FlagsFrom(ticks, k + 1) + tail;
    var s := FlagsFrom(ticks, k) + tail;
    assert FlagsFrom(ticks, k) == Opt(ticks[k], FlagOrder[k]) + FlagsFrom(ticks, k + 1);
    AppendAssoc(Opt(ticks[k], FlagOrder[k]), FlagsFrom(ticks, k + 1), tail);
    assert s == Opt(ticks[k], FlagOrder[k]) + later;
    assert ticks[k..] == [ticks[k]] + ticks[k + 1..];
    if ticks[k] {
      ParsePresentFlag(later, k);
    } else {
      LaterFlagsDiffer(ticks, k, tail);
      ParseAbsentFlag(later, k);
    }
  }

  /**
   * A flag `k` that is not next is read back as not ticked, and nothing is
   * consumed. The list is written `[] + later`, the shape `FlagsFrom` gives
   * an unticked flag, so that callers need no extra step.
   */
  lemma ParseAbsentFlag(later: seq<string>, k: nat)
    requires k < |FlagOrder|
    requires later == [] || later[0] != FlagOrder[k]
    ensures ParseFlags([] + later, k)
         == ([false] + ParseFlags(later, k + 1).0, ParseFlags(later, k + 1).1)
  {
    assert [] + later == later;
  }

  /** An emitted flag `k` is consumed and read back as ticked. */
  lemma ParsePresentFlag(later: seq<string>, k: nat)
    requires k < |FlagOrder|
    ensures ParseFlags([FlagOrder[k]] + later, k)
         == ([true] + ParseFlags(later, k + 1).0, ParseFlags(later, k + 1).1)
  {
    assert ([FlagOrder[k]] + later)[1..] == later;
  }



  /** The flags of a request are read back as its ticked boxes. */
  lemma ParseFlagTokens(r: Request, tail: seq<string>)
    requires tail == [] || tail[0] !in FlagOrder
    ensures ParseFlags(FlagTokens(r) + tail, FirstFlag) == (Ticks(r), tail)
  {
    FlagsUnrolled(r);
    ParseFlagsOf(Ticks(r), 0, tail);
    assert Ticks(r)[0..] == Ticks(r);
  }

  lemma TakeOptionOf(key: string, value: string, tail: seq<string>)
    requires NoPairAhead(tail, key)
    ensures TakeOption(Pair(key, value) + tail, key) == (Given(value), tail)
  {
    if value != "" {
      assert (Pair(key, value) + tail)[2..] == tail;
    } else {
      assert Pair(key, value) + tail == tail;
    }
  }

  lemma NoPairAheadOf(key: string, other: string, value: string, tail: seq<string>)
    requires key != other && NoPairAhead(tail, key)
    ensures NoPairAhead(Pair(other, value) + tail, key)
  {
  }

  /** Port, baud, programmer and chip are read back, then the operation token. */
  lemma ParseConnectionOf(confPath: string, verbosity: nat, ticks: seq<bool>, r: Request, op: seq<string>)
    requires |op| <= 1
    ensures ParseConnection(confPath, verbosity, ticks, ConnectionTokens(r) + op)
         == Some(Invocation(confPath, verbosity, ticks,
                            if PortSelected(r.port) then Some(r.port) else None,
                            Given(r.baud), Given(r.programmer), Given(r.chip),
                            if op == [] then None else Some(op[0])))
  {
    var p, b, c, q := PortTokens(r.port), Pair("-b", r.baud), Pair("-c", r.programmer), Pair("-p", r.chip);
    var afterProgrammer := q + op;
    var afterBaud := c + afterProgrammer;
    var afterPort := b + afterBaud;
    assert ConnectionTokens(r) + op == p + afterPort by {
      AppendAssoc(p + b + c, q, op);
      AppendAssoc(p + b, c, q + op);
      AppendAssoc(p, b, c + (q + op));
    }
    NoPairAheadOf("-c", "-p", r.chip, op);
    NoPairAheadOf("-b", "-p", r.chip, op);
    NoPairAheadOf("-b", "-c", r.programmer, afterProgrammer);
    NoPairAheadOf("-P", "-p", r.chip, op);
    NoPairAheadOf("-P", "-c", r.programmer, afterProgrammer);
    NoPairAheadOf("-P", "-b", r.baud, afterBaud);
    assert p == Pair("-P", if PortSelected(r.port) then r.port else "");
    TakeOptionOf("-P", if PortSelected(r.port) then r.port else "", afterPort);
    TakeOptionOf("-b", r.baud, afterBaud);
    TakeOptionOf("-c", r.programmer, afterProgrammer);
    TakeOptionOf("-p", r.chip, op);
  }

  /**
   * Round trip: reading back what `buildAvrdudeArgs` built recovers the
   * configuration path, the verbosity level, every flag, exactly the port
   * (never the placeholder), baud, programmer and chip that were given, and
   * the operation token, so no option is lost, duplicated or reordered.
   */
  lemma ParseArgList(writeTemplate: Option<Template>, r: Request)
    requires IsMemoryOperation(writeTemplate)
    ensures ParseArgs(ArgList(writeTemplate, r)) == Some(Intended(writeTemplate, r))
  {
    var n := VerbosityLevel(r.verbosity);
    var conf := ConfPath(r.confOverride);
    var op := OperationTokens(writeTemplate, r.hexfile);
    var afterFlags := ConnectionTokens(r) + op;
    var afterVerbosity := FlagTokens(r) + afterFlags;
    ArgListSplit(writeTemplate, r);
    AfterFlagsClear(writeTemplate, r);
    AfterVerbosityClear(writeTemplate, r);
    ParseArgsOpening(conf, n, afterVerbosity);
    ParseFlagTokens(r, afterFlags);
    ParseConnectionOf(conf, n, Ticks(r), r, op);
  }

  /** The `-C` pair and a run of `n` tokens `-v` are read back as the configuration and `n`. */
  lemma ParseArgsOpening(confPath: string, n: nat, rest: seq<string>)
    requires rest == [] || rest[0] != "-v"
    ensures ParseArgs(["-C", confPath] + (Repeat("-v", n) + rest))
         == ParseConnection(confPath, n, ParseFlags(rest, FirstFlag).0, ParseFlags(rest, FirstFlag).1)
  {
    var vs := Repeat("-v", n) + rest;
    var args := ["-C", confPath] + vs;
    assert |args| >= 2 && args[0] == "-C" && args[1] == confPath;
    assert args[2..] == vs;
    RunLengthOfRepeat("-v", n, rest);
    assert vs[n..] == rest;
    assert args[2 + n..] == rest;
    var flags := ParseFlags(args[2 + RunLength(args[2..], "-v")..], FirstFlag);
    assert flags == ParseFlags(rest, FirstFlag);
  }

  /** The list regrouped as: the `-C` pair, the `-v`s, the flags, the pairs, the operation. */
  lemma ArgListSplit(writeTemplate: Option<Template>, r: Request)
    ensures ArgList(writeTemplate, r)
         == ["-C", ConfPath(r.confOverride)]
            + (Repeat("-v", VerbosityLevel(r.verbosity))
               + (FlagTokens(r) + (ConnectionTokens(r) + OperationTokens(writeTemplate, r.hexfile))))
  {
    var head := ["-C", ConfPath(r.confOverride)];
    var vs := Repeat("-v", VerbosityLevel(r.verbosity));
    var flags, conn, op := FlagTokens(r), ConnectionTokens(r), OperationTokens(writeTemplate, r.hexfile);
    AppendAssoc(head + vs + flags, conn, op);
    AppendAssoc(head + vs, flags, conn + op);
    AppendAssoc(head, vs, flags + (conn + op));
  }

  /** Nothing after the flags reads as a flag or as `-v`. */
  lemma AfterFlagsClear(writeTemplate: Option<Template>, r: Request)
    requires IsMemoryOperation(writeTemplate)
    ensures NoFlagAhead(ConnectionTokens(r) + OperationTokens(writeTemplate, r.hexfile))
  {
    var conn := ConnectionTokens(r);
    var op := OperationTokens(writeTemplate, r.hexfile);
    if writeTemplate.Some? {
      OperationTokenShape(writeTemplate.value, r.hexfile);
    }
    if conn != [] {
      assert conn[0] in {"-P", "-b", "-c", "-p"};
      assert (conn + op)[0] == conn[0];
      forall j | 0 <= j < |FlagOrder|
        ensures conn[0] != FlagOrder[j]
      {
        assert conn[0][1] != FlagOrder[j][1];
      }
    } else {
      assert conn + op == op;
    }
  }

  /** Nothing after the verbosity tokens reads as `-v`. */
  lemma AfterVerbosityClear(writeTemplate: Option<Template>, r: Request)
    requires IsMemoryOperation(writeTemplate)
    ensures var s := FlagTokens(r) + (ConnectionTokens(r) + OperationTokens(writeTemplate, r.hexfile));
      s == [] || s[0] != "-v"
  {
    var flags := FlagTokens(r);
    if flags != [] {
      FlagsUnrolled(r);
      FlagsFromRange(Ticks(r), 0);
      var j :| 0 <= j < |FlagOrder| && flags[0] == FlagOrder[j];
      assert FlagOrder[j][1] != 'v';
    } else {
      AfterFlagsClear(writeTemplate, r);
    }
  }

  /** The operation token is the last element, present exactly when there is a template. */
  lemma OperationLast(t: Template, r: Request)
    ensures ArgList(Some(t), r) == ArgList(None, r) + [OperationToken(t, r.hexfile)]
  {
    assert OperationTokens(None, r.hexfile) == [];
  }

  /**
   * The list opens with the configuration pair, then the requested `-v`s.
   * For the templates of the buttons the run of `-v`s ends there; a template
   * whose token could itself read `-v` may extend it.
   */
  lemma ArgListOpening(writeTemplate: Option<Template>, r: Request)
    ensures var args := ArgList(writeTemplate, r);
      var n := VerbosityLevel(r.verbosity);
      && |args| >= 2 + n
      && args[..2] == ["-C", ConfPath(r.confOverride)]
      && args[2..2 + n] == Repeat("-v", n)
      && (IsMemoryOperation(writeTemplate) ==> |args| == 2 + n || args[2 + n] != "-v")
  {
    var args := ArgList(writeTemplate, r);
    var n := VerbosityLevel(r.verbosity);
    var head := ["-C", ConfPath(r.confOverride)] + Repeat("-v", n);
    var flags, conn, op := FlagTokens(r), ConnectionTokens(r), OperationTokens(writeTemplate, r.hexfile);
    AppendAssoc(head + flags, conn, op);
    AppendAssoc(head, flags, conn + op);
    assert args == head + (flags + (conn + op));
    assert args[..2 + n] == head;
    if IsMemoryOperation(writeTemplate) {
      ArgListSplit(writeTemplate, r);
      AfterVerbosityClear(writeTemplate, r);
      assert args[2 + n..] == flags + (conn + op);
    }
  }

  // The three buttons.

  /** Splits a `-Uflash:<w|r>:<path>:i` token into the operation and the path. */
  function ParseFlashToken(token: string): Option<(Operation, string)>
  {
    if |token| >= 12 && token[|token| - 2..] == ":i" && token[..10] == "-Uflash:w:" then
      Some((Write, token[10..|token| - 2]))
    else if |token| >= 12 && token[|token| - 2..] == ":i" && token[..10] == "-Uflash:r:" then
      Some((Read, token[10..|token| - 2]))
    else None
  }

  /**
   * What each button asks for: Write and Read name the flash memory with the
   * hex path (or `-` when none was typed) and their direction; Erase adds no
   * operation token and always carries `-e`; the placeholder port never
   * reaches avrdude.
   */
  lemma ButtonInvocation(op: Operation, form: Request)
    ensures var p := ParseArgs(ArgList(ButtonTemplate(op), ButtonRequest(op, form)));
      && p.Some?
      && p.value.ticks == [form.force, form.disableVerify, form.disableErase,
                           op == Erase || form.eraseEEPROM, form.doNotWrite]
      && p.value.port != Some(NoPortsSentinel)
      && (p.value.port.Some? <==> PortSelected(form.port))
      && (op == Erase <==> p.value.operation.None?)
      && (op != Erase ==> ParseFlashToken(p.value.operation.value)
                          == Some((op, if form.hexfile == "" then StdioPath else form.hexfile)))
  {
    var t := ButtonTemplate(op);
    var r := ButtonRequest(op, form);
    ParseArgList(t, r);
    var i := Intended(t, r);
    assert i.ticks == Ticks(r);
    if op != Erase {
      FlashTokenOf(op, form.hexfile);
    }
  }

  /** The token of the Write and Read buttons splits back into the button and the file. */
  lemma FlashTokenOf(op: Operation, hexfile: string)
    requires op != Erase
    ensures ParseFlashToken(OperationToken(ButtonTemplate(op).value, hexfile))
         == Some((op, if hexfile == "" then StdioPath else hexfile))
  {
    var t := ButtonTemplate(op).value;
    var token := OperationToken(t, hexfile);
    var path := if hexfile == "" then StdioPath else hexfile;
    assert token == t.prefix + path + ":i";
    assert token[|token| - 2..] == ":i";
    assert token[..10] == t.prefix;
    assert token[10..|token| - 2] == path;
  }

  /** The Erase button's list contains `-e` and ends without an operation token. */
  lemma EraseArgs(form: Request)
    ensures var args := ArgList(None, ButtonRequest(Erase, form));
      && "-e" in args
      && forall t: Template :: ArgList(Some(t), ButtonRequest(Erase, form))
                               == args + [OperationToken(t, "")]
  {
    var r := ButtonRequest(Erase, form);
    var args := ArgList(None, r);
    FlagTokensSpec(r);
    assert FlagOrder[3] == "-e" && "-e" in FlagTokens(r);
    ArgListOpening(None, r);
    var n := VerbosityLevel(r.verbosity);
    assert args == ["-C", ConfPath(r.confOverride)] + Repeat("-v", n) + FlagTokens(r)
                   + ConnectionTokens(r) + [];
    forall t: Template
      ensures ArgList(Some(t), r) == args + [OperationToken(t, "")]
    {
      OperationLast(t, r);
    }
  }
}
