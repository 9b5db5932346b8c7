/** The scaffolding side: cleaning of the command-line values and rendering of an addon manifest. */
module ManifestFactory {
  import opened Options
  import opened PyText

  datatype Manifest = Manifest(
    addonKey: string,
    addonClass: string,
    rulebookName: string,
    pathRoots: seq<string>,
    ownsSurfaces: seq<string>,
    touchesSurfaces: seq<string>,
    capabilitiesAny: seq<string>,
    capabilitiesAll: seq<string>,
    signals: seq<(string, string)>)

  // ---------------------------------------------------------------------
  // Rendering
  // ---------------------------------------------------------------------

  function Item(v: string): string
  {
    "  - " + v
  }

  function Items(values: seq<string>): (lines: seq<string>)
    ensures |lines| == |values| && forall k :: 0 <= k < |lines| ==> lines[k] == Item(values[k])
  {
    seq(|values|, i requires 0 <= i < |values| => Item(values[i]))
  }

  function SignalItem(signal: (string, string)): string
  {
    "    - " + signal.0 + ": " + signal.1
  }

  function SignalItems(signals: seq<(string, string)>): (lines: seq<string>)
    ensures |lines| == |signals| && forall k :: 0 <= k < |lines| ==> lines[k] == SignalItem(signals[k])
  {
    seq(|signals|, i requires 0 <= i < |signals| => SignalItem(signals[i]))
  }

  /** A block that is left out altogether when it has no values. */
  function OptionalBlock(header: string, values: seq<string>): seq<string>
  {
    if values == [] then [] else [header, Join("\n", Items(values))]
  }

  function RenderManifest(m: Manifest): string
  {
    var lines := [
      "addon_key: " + m.addonKey,
      "addon_class: " + m.addonClass,
      "rulebook: rules." + m.rulebookName + ".md",
      "manifest_version: 1",
      "path_roots:",
      Join("\n", Items(m.pathRoots)),
      "owns_surfaces:",
      Join("\n", Items(m.ownsSurfaces)),
      "touches_surfaces:",
      Join("\n", Items(m.touchesSurfaces))
    ];
    var capabilities :=
      OptionalBlock("capabilities_any:", m.capabilitiesAny) + OptionalBlock("capabilities_all:", m.capabilitiesAll);
    Join("\n", lines + capabilities + ["signals:", "  any:", Join("\n", SignalItems(m.signals))]) + "\n"
  }

  // ---------------------------------------------------------------------
  // Cleaning the arguments
  // ---------------------------------------------------------------------

  datatype FactoryError =
    | InvalidAddonKey
    | InvalidRulebookName
    | MissingInput(name: string)
    | MissingCapability
    | InvalidSignal(raw: string)
    | MissingSignal

  datatype Arguments = Arguments(
    addonKey: string,
    addonClass: string,
    rulebookName: string,
    pathRoots: seq<string>,
    ownsSurfaces: seq<string>,
    touchesSurfaces: seq<string>,
    criticalClaims: seq<string>,
    capabilitiesAny: seq<string>,
    capabilitiesAll: seq<string>,
    signals: seq<string>)

  function RequireNonEmpty(name: string, values: seq<string>): Result<seq<string>, FactoryError>
  {
    var cleaned := StripAll(values);
    if cleaned == [] then Raised(MissingInput(name)) else Ok(cleaned)
  }

  /** Position of the first `c` at or after `i`, or the length of the text. */
  function IndexOf(s: string, c: char, i: nat): (n: nat)
    requires i <= |s|
    ensures i <= n <= |s| && (forall k :: i <= k < n ==> s[k] != c) && (n < |s| ==> s[n] == c)
    decreases |s| - i
  {
    if i < |s| && s[i] != c then IndexOf(s, c, i + 1) else i
  }

  function KeyValue(raw: string, key: string, val: string): Result<Option<(string, string)>, FactoryError>
  {
    if key == "" || val == "" then Raised(InvalidSignal(raw)) else Ok(Some((key, val)))
  }

  /** One `key=value` argument: nothing for a blank one. */
  function SplitSignal(raw: string): Result<Option<(string, string)>, FactoryError>
  {
    var item := Strip(raw);
    var n := IndexOf(item, '=', 0);
    if item == "" then Ok(None)
    else if n == |item| then Raised(InvalidSignal(raw))
    else KeyValue(raw, Strip(item[..n]), Strip(item[n + 1..]))
  }

  type Splitter = string -> Result<Option<(string, string)>, FactoryError>

  /** The signals of `values` after those in `read`, or the error of the first bad argument. */
  ghost function SplitSignals(split: Splitter, read: seq<(string, string)>, values: seq<string>):
    Result<seq<(string, string)>, FactoryError>
    decreases |values|
  {
    if values == [] then Ok(read)
    else
      match split(values[0])
      case Raised(error) => Raised(error)
      case Ok(None) => SplitSignals(split, read, values[1..])
      case Ok(Some(signal)) => SplitSignals(split, read + [signal], values[1..])
  }

  ghost function SignalEntries(values: seq<string>): Result<seq<(string, string)>, FactoryError>
  {
    var r := SplitSignals(SplitSignal, [], values);
    if r == Ok([]) then Raised(MissingSignal) else r
  }

  method ParseSignalEntries(values: seq<string>) returns (r: Result<seq<(string, string)>, FactoryError>)
    ensures r == SignalEntries(values)
  {
    var parsed: seq<(string, string)> := [];
    for i := 0 to |values|
      invariant SplitSignals(SplitSignal, parsed, values[i..]) == SplitSignals(SplitSignal, [], values)
    {
      match SplitSignal(values[i])
      case Raised(error) => return Raised(error);
      case Ok(None) =>
      case Ok(Some(signal)) => parsed := parsed + [signal];
    }
    r := if parsed == [] then Raised(MissingSignal) else Ok(parsed);
  }

  predicate IsLetter(c: char)
  {
    'A' <= c <= 'Z' || 'a' <= c <= 'z'
  }

  predicate IsDigit(c: char)
  {
    '0' <= c <= '9'
  }

  predicate IsAddonKey(s: string)
  {
    s != "" && IsLetter(s[0]) && forall c <- s :: IsLetter(c) || IsDigit(c)
  }

  predicate IsLowerOrDigit(c: char)
  {
    'a' <= c <= 'z' || IsDigit(c)
  }

  predicate IsRulebookName(s: string)
  {
    s != "" && IsLowerOrDigit(s[0]) && forall c <- s :: IsLowerOrDigit(c) || c == '.' || c == '-'
  }

  /** The manifest an addon request leads to, checks in the order they are made. */
  ghost function BuildManifest(args: Arguments): Result<Manifest, FactoryError>
  {
    var key, name := Strip(args.addonKey), Strip(args.rulebookName);
    var roots := RequireNonEmpty("--path-root", args.pathRoots);
    var owns := RequireNonEmpty("--owns-surface", args.ownsSurfaces);
    var touches := RequireNonEmpty("--touches-surface", args.touchesSurfaces);
    var claims := RequireNonEmpty("--critical-quality-claim", args.criticalClaims);
    var any, all := StripAll(args.capabilitiesAny), StripAll(args.capabilitiesAll);
    var signals := SignalEntries(args.signals);
    if !IsAddonKey(key) then Raised(InvalidAddonKey)
    else if !IsRulebookName(name) then Raised(InvalidRulebookName)
    else if roots.Raised? then Raised(roots.error)
    else if owns.Raised? then Raised(owns.error)
    else if touches.Raised? then Raised(touches.error)
    else if claims.Raised? then Raised(claims.error)
    else if any == [] && all == [] then Raised(MissingCapability)
    else if signals.Raised? then Raised(signals.error)
    else Ok(Manifest(key, args.addonClass, name, roots.value, owns.value, touches.value, any, all, signals.value))
  }
}
