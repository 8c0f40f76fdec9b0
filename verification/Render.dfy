/** How the Go SDK resolves images and renders a declaration for the cloud. */
module Render {
  import opened Wrappers
  import opened Sdk
  import Sandrun

  const MAX_ENCODED_SPEC_BYTES: nat := 120 * 1024

  // -------------------------------------------------------------- images

  const PERSONAL: string := "personal"
  const ENTERPRISE: string := "enterprise"

  datatype Image = Image(reference: string, registry: string)

  datatype SidecarImage = SidecarImage(name: string, image: Image)

  datatype ImageSet = ImageSet(runtime: Image, sidecars: seq<SidecarImage>)

  datatype ResolvedImage = ResolvedImage(mountName: string, mountPath: string, image: Image)

  datatype ResolvedSet = ResolvedSet(
    runtime: ResolvedImage, sidecars: map<string, ResolvedImage>, ordered: seq<ResolvedImage>)

  /** The UTF-8 bytes of one white space character. */
  predicate IsSpace(s: string) {
    match |s|
    case 1 => var c := s[0] as int; 9 <= c <= 13 || c == 32
    case 2 => s[0] as int == 0xC2 && (s[1] as int == 0x85 || s[1] as int == 0xA0)
    case 3 =>
      var a, b, c := s[0] as int, s[1] as int, s[2] as int;
      || (a == 0xE1 && b == 0x9A && c == 0x80)
      || (a == 0xE2 && b == 0x80 && (0x80 <= c <= 0x8A || c == 0xA8 || c == 0xA9 || c == 0xAF))
      || (a == 0xE2 && b == 0x81 && c == 0x9F)
      || (a == 0xE3 && b == 0x80 && c == 0x80)
    case _ => false
  }

  /** `strings.TrimSpace` leaves the text alone. */
  predicate IsTrimmed(s: string) {
    && (|s| >= 1 ==> !IsSpace(s[..1]) && !IsSpace(s[|s| - 1..]))
    && (|s| >= 2 ==> !IsSpace(s[..2]) && !IsSpace(s[|s| - 2..]))
    && (|s| >= 3 ==> !IsSpace(s[..3]) && !IsSpace(s[|s| - 3..]))
  }

  /** `validateImage`. */
  predicate ValidImage(image: Image) {
    && image.reference != "" && IsTrimmed(image.reference) && '\0' !in image.reference
    && (image.registry == PERSONAL || image.registry == ENTERPRISE)
  }

  function Resolved(s: SidecarImage): ResolvedImage {
    ResolvedImage("sandcamp-sidecar-" + s.name, MountPath(s.name), s.image)
  }

  ghost predicate ImagesAccepted(images: ImageSet) {
    && ValidImage(images.runtime)
    && SidecarsAccepted(images.sidecars)
  }

  ghost predicate SidecarsAccepted(sidecars: seq<SidecarImage>) {
    && (forall s :: s in sidecars ==> MatchesName(s.name) && ValidImage(s.image))
    && forall i, j :: 0 <= i < j < |sidecars| ==> sidecars[i].name != sidecars[j].name
  }

  /** Every image is listed once, in order, and found under its own name. */
  ghost predicate Indexes(
      sidecars: seq<SidecarImage>, byName: map<string, ResolvedImage>, ordered: seq<ResolvedImage>)
  {
    && |ordered| == |sidecars|
    && (forall i :: 0 <= i < |sidecars| ==> ordered[i] == Resolved(sidecars[i]))
    && (forall i :: 0 <= i < |sidecars| ==> sidecars[i].name in byName && byName[sidecars[i].name] == ordered[i])
    && forall n :: n in byName ==> exists i :: 0 <= i < |sidecars| && sidecars[i].name == n
  }

  /** `resolveImageSet`. */
  method ResolveImageSet(images: ImageSet) returns (r: Option<ResolvedSet>)
    ensures r.Some? <==> ImagesAccepted(images)
    ensures r.Some? ==>
      && r.value.runtime == ResolvedImage("sandcamp-runtime", "/mnt/sandcamp", images.runtime)
      && Indexes(images.sidecars, r.value.sidecars, r.value.ordered)
  {
    hide ValidImage, MatchesName, MountPath, SidecarsAccepted, Indexes;
    if !ValidImage(images.runtime) {
      return None;
    }
    var all := images.sidecars;
    var sidecars: map<string, ResolvedImage> := map[];
    var ordered: seq<ResolvedImage> := [];
    NothingListed();
    for i := 0 to |all|
      invariant SidecarsAccepted(all[..i]) && Indexes(all[..i], sidecars, ordered)
    {
      var next := all[i];
      assert all[..i + 1] == all[..i] + [next];
      AcceptedSnoc(all[..i], sidecars, ordered, next);
      if !MatchesName(next.name) || !ValidImage(next.image) || next.name in sidecars {
        RefusedStays(all[..i + 1], all);
        return None;
      }
      IndexesSnoc(all[..i], sidecars, ordered, next);
      sidecars := sidecars[next.name := Resolved(next)];
      ordered := ordered + [Resolved(next)];
    }
    assert all[..|all|] == all;
    return Some(ResolvedSet(ResolvedImage("sandcamp-runtime", "/mnt/sandcamp", images.runtime), sidecars, ordered));
  }

  lemma NothingListed()
    ensures SidecarsAccepted([]) && Indexes([], map[], [])
  {
  }

  /** One more image is accepted exactly if it is valid itself and newly named. */
  lemma AcceptedSnoc(
      sidecars: seq<SidecarImage>, byName: map<string, ResolvedImage>, ordered: seq<ResolvedImage>, next: SidecarImage)
    requires SidecarsAccepted(sidecars) && Indexes(sidecars, byName, ordered)
    ensures SidecarsAccepted(sidecars + [next])
            <==> MatchesName(next.name) && ValidImage(next.image) && next.name !in byName
  {
    hide ValidImage, MatchesName;
    var longer := sidecars + [next];
    assert next in longer && longer[|sidecars|] == next && forall s :: s in longer <==> s in sidecars || s == next;
    if next.name in byName {
      var i :| 0 <= i < |sidecars| && sidecars[i].name == next.name;
      assert longer[i].name == longer[|sidecars|].name;
    }
  }

  lemma RefusedStays(part: seq<SidecarImage>, all: seq<SidecarImage>)
    requires part <= all && !SidecarsAccepted(part)
    ensures !SidecarsAccepted(all)
  {
    hide ValidImage, MatchesName;
    if SidecarsAccepted(all) {
      assert forall i :: 0 <= i < |part| ==> part[i] == all[i];
      assert forall s :: s in part ==> s in all;
    }
  }

  lemma IndexesSnoc(
      sidecars: seq<SidecarImage>, byName: map<string, ResolvedImage>, ordered: seq<ResolvedImage>, next: SidecarImage)
    requires Indexes(sidecars, byName, ordered) && next.name !in byName
    ensures Indexes(sidecars + [next], byName[next.name := Resolved(next)], ordered + [Resolved(next)])
  {
    var longer := sidecars + [next];
    var more := byName[next.name := Resolved(next)];
    forall n | n in more
      ensures exists i :: 0 <= i < |longer| && longer[i].name == n
    {
      if n == next.name {
        assert longer[|sidecars|].name == n;
      } else {
        var i :| 0 <= i < |sidecars| && sidecars[i].name == n;
        assert longer[i].name == n;
      }
    }
  }

  // --------------------------------------------------------------- ports

  predicate Ascending(ports: seq<int>) {
    forall i, j :: 0 <= i < j < |ports| ==> ports[i] <= ports[j]
  }

  /** What `sort.Ints` makes of a list. */
  function Sorted(ports: seq<int>): seq<int> {
    if ports == [] then [] else Inserted(Sorted(ports[..|ports| - 1]), ports[|ports| - 1])
  }

  function Inserted(ports: seq<int>, port: int): seq<int> {
    if ports == [] || ports[|ports| - 1] <= port then ports + [port]
    else Inserted(ports[..|ports| - 1], port) + [ports[|ports| - 1]]
  }

  lemma {:induction false} InsertedBag(ports: seq<int>, port: int)
    ensures multiset(Inserted(ports, port)) == multiset(ports) + multiset{port}
    decreases |ports|
  {
    if ports != [] && ports[|ports| - 1] > port {
      var init, last := ports[..|ports| - 1], ports[|ports| - 1];
      assert ports == init + [last];
      InsertedBag(init, port);
    }
  }

  lemma {:induction false} InsertedAscending(ports: seq<int>, port: int, bound: int)
    requires Ascending(ports) && port <= bound && forall p :: p in ports ==> p <= bound
    ensures Ascending(Inserted(ports, port)) && forall p :: p in Inserted(ports, port) ==> p <= bound
    decreases |ports|
  {
    if ports != [] && ports[|ports| - 1] > port {
      var init, last := ports[..|ports| - 1], ports[|ports| - 1];
      assert ports == init + [last];
      assert last in ports && forall i :: 0 <= i < |init| ==> ports[i] == init[i];
      InsertedAscending(init, port, last);
      AscendingSnoc(Inserted(init, port), last);
    } else {
      AscendingSnoc(ports, port);
    }
  }

  lemma AscendingSnoc(ports: seq<int>, last: int)
    requires Ascending(ports) && forall p :: p in ports ==> p <= last
    ensures Ascending(ports + [last])
  {
    var longer := ports + [last];
    forall i, j | 0 <= i < j < |longer|
      ensures longer[i] <= longer[j]
    {
      assert ports[i] in ports;
    }
  }

  lemma {:induction false} Highest(ports: seq<int>, port: int) returns (bound: int)
    ensures port <= bound && forall p :: p in ports ==> p <= bound
    decreases |ports|
  {
    bound := port;
    if ports != [] {
      var init, last := ports[..|ports| - 1], ports[|ports| - 1];
      assert ports == init + [last];
      bound := Highest(init, if last > port then last else port);
    }
  }

  lemma {:induction false} SortedMeaning(ports: seq<int>)
    ensures Ascending(Sorted(ports)) && multiset(Sorted(ports)) == multiset(ports)
    decreases |ports|
  {
    if ports != [] {
      var init, last := ports[..|ports| - 1], ports[|ports| - 1];
      assert ports == init + [last];
      SortedMeaning(init);
      InsertedBag(Sorted(init), last);
      var bound := Highest(Sorted(init), last);
      InsertedAscending(Sorted(init), last, bound);
    }
  }

  /** `exposedPorts`. */
  method ExposedPorts(spec: Spec) returns (ports: seq<int>)
    ensures ports == Sorted(Ports(Processes(spec)))
  {
    var all := Processes(spec);
    var result: seq<int> := [];
    for i := 0 to |all|
      invariant result == Ports(all[..i])
    {
      assert all[..i + 1][..i] == all[..i];
      result := result + all[i].expose;
    }
    assert all[..|all|] == all;
    return Sorted(result);
  }

  // ------------------------------------------------------- configuration

  datatype Port = Port(name: string, number: int, protocol: string)

  datatype HttpProbe = HttpProbe(
    path: string, port: int, scheme: string,
    readyTimeoutMs: int, periodMs: int, timeoutMs: int, successThreshold: int, failureThreshold: int)

  datatype Configuration = Configuration(
    command: seq<string>, args: seq<string>, env: map<string, string>, ports: seq<Port>, probe: HttpProbe)

  const READY_PROBE := HttpProbe("/ready", CONTROL_PORT, "HTTP", 30_000, 1_000, 2_000, 1, 30)

  function PortOf(number: int): Port {
    Port("port-" + if number < 0 then "-" + Sandrun.Decimal(-number) else Sandrun.Decimal(number), number, "TCP")
  }

  function PortsOf(numbers: seq<int>): (ports: seq<Port>)
    ensures |ports| == |numbers|
  {
    seq(|numbers|, i requires 0 <= i < |numbers| => PortOf(numbers[i]))
  }

  function Configured(spec: Spec, payload: string): Configuration {
    Configuration(["/mnt/sandcamp/bin/campd"], ["--"], map[SPEC_ENVIRONMENT := payload],
                  PortsOf(Sorted(Ports(Processes(spec)))), READY_PROBE)
  }

  predicate HasImage(images: ImageSet, name: string) {
    exists i :: 0 <= i < |images.sidecars| && images.sidecars[i].name == name
  }

  /** Whether `RenderStart` goes through, given the encoder's text for a declaration. */
  ghost predicate Renders(images: ImageSet, spec: Spec, encoder: WireSpec -> string) {
    && ImagesAccepted(images)
    && Accepts(spec)
    && (forall p :: p in spec.sidecars ==> HasImage(images, p.name))
    && |encoder(ToRuntimeSpec(spec))| <= MAX_ENCODED_SPEC_BYTES
  }

  /** `RenderStart`. */
  method RenderStart(images: ImageSet, spec: Spec, encoder: WireSpec -> string) returns (r: Option<Configuration>)
    ensures r.Some? <==> Renders(images, spec, encoder)
    ensures r.Some? ==> r.value == Configured(spec, encoder(ToRuntimeSpec(spec)))
  {
    hide ImagesAccepted, Accepts, ToRuntimeSpec, MountPath, Sorted, Ports;
    var resolved := ResolveImageSet(images);
    if resolved.None? {
      return None;
    }
    var valid := Validate(spec);
    if !valid {
      return None;
    }
    for i := 0 to |spec.sidecars|
      invariant forall p :: p in spec.sidecars[..i] ==> HasImage(images, p.name) && p.name in resolved.value.sidecars
    {
      if spec.sidecars[i].name !in resolved.value.sidecars {
        assert spec.sidecars[i] in spec.sidecars;
        return None;
      }
    }
    forall p | p in spec.sidecars
      ensures p.name in resolved.value.sidecars && resolved.value.sidecars[p.name].mountPath == MountPath(p.name)
    {
      var i :| 0 <= i < |images.sidecars| && images.sidecars[i].name == p.name;
    }
    var wire := EncodeSpec(spec, resolved.value.sidecars);
    var payload := encoder(wire);
    if |payload| > MAX_ENCODED_SPEC_BYTES {
      return None;
    }
    var numbers := ExposedPorts(spec);
    var ports: seq<Port> := [];
    for i := 0 to |numbers|
      invariant ports == PortsOf(numbers)[..i]
    {
      ports := ports + [PortOf(numbers[i])];
    }
    return Some(Configuration(["/mnt/sandcamp/bin/campd"], ["--"], map[SPEC_ENVIRONMENT := payload],
                              ports, READY_PROBE));
  }

  /** `encodeSpec`, before JSON and Base64. */
  method EncodeSpec(spec: Spec, images: map<string, ResolvedImage>) returns (wire: WireSpec)
    requires forall p :: p in spec.sidecars ==> p.name in images && images[p.name].mountPath == MountPath(p.name)
    ensures wire == ToRuntimeSpec(spec)
  {
    var sidecars: seq<WireSidecar> := [];
    for i := 0 to |spec.sidecars|
      invariant sidecars == ToRuntimeSpec(spec).sidecars[..i]
    {
      assert spec.sidecars[i] in spec.sidecars;
      sidecars := sidecars + [ToRuntimeSidecar(spec.sidecars[i], images[spec.sidecars[i].name].mountPath)];
    }
    var main: seq<WireProcess> := [];
    for i := 0 to |spec.main|
      invariant main == ToRuntimeSpec(spec).main[..i]
    {
      main := main + [ToRuntimeProcess(spec.main[i])];
    }
    return WireSpec(RUNTIME_SPEC_VERSION, sidecars, main);
  }

  predicate Exposes(ps: seq<Process>, number: int) {
    exists p :: p in ps && number in p.expose
  }

  predicate Lists(ports: seq<Port>, number: int) {
    exists i :: 0 <= i < |ports| && ports[i].number == number
  }

  /**
   The ports of a rendered configuration are exactly the declared ones, at
   most eight, strictly ascending, each a valid port other than the one the
   cloud asks for readiness.
   */
  lemma RenderedPorts(images: ImageSet, spec: Spec, encoder: WireSpec -> string)
    requires Renders(images, spec, encoder)
    ensures var config := Configured(spec, encoder(ToRuntimeSpec(spec)));
            && |config.ports| <= MAX_EXPOSED_PORTS
            && (forall i, j :: 0 <= i < j < |config.ports| ==> config.ports[i].number < config.ports[j].number)
            && (forall i :: 0 <= i < |config.ports| ==>
                  ValidPort(config.ports[i].number) && config.ports[i].number != config.probe.port)
            && forall number :: Lists(config.ports, number) <==> Exposes(Processes(spec), number)
  {
    hide ImagesAccepted, ToRuntimeSpec, ValidMounts, NoSidecarOptions, Sorted, Ports, ValidLifecycle, ValidCommand;
    var all := Ports(Processes(spec));
    var sorted := Sorted(all);
    SortedOnce(all);
    forall i | 0 <= i < |sorted|
      ensures ValidPort(sorted[i])
    {
      PortsMeaning(Processes(spec), sorted[i]);
    }
    forall number
      ensures Lists(PortsOf(sorted), number) <==> Exposes(Processes(spec), number)
    {
      PortsMeaning(Processes(spec), number);
      ListsMeaning(sorted, number);
    }
  }

  lemma ListsMeaning(numbers: seq<int>, number: int)
    ensures Lists(PortsOf(numbers), number) <==> number in numbers
  {
    if number in numbers {
      var i :| 0 <= i < |numbers| && numbers[i] == number;
      assert PortsOf(numbers)[i].number == number;
    }
  }

  /** Sorting distinct ports makes them strictly ascending and keeps each. */
  lemma SortedOnce(all: seq<int>)
    requires NoRepeats(all)
    ensures var sorted := Sorted(all);
            && |sorted| == |all| && (forall n :: n in sorted <==> n in all)
            && forall i, j :: 0 <= i < j < |sorted| ==> sorted[i] < sorted[j]
  {
    hide Sorted;
    var sorted := Sorted(all);
    SortedMeaning(all);
    assert |sorted| == |multiset(sorted)| == |multiset(all)| == |all|;
    forall n
      ensures n in sorted <==> n in all
    {
      assert n in sorted <==> n in multiset(sorted);
      assert n in all <==> n in multiset(all);
    }
    forall i, j | 0 <= i < j < |sorted|
      ensures sorted[i] < sorted[j]
    {
      NoRepeatsCount(all, sorted[i]);
      if sorted[i] == sorted[j] {
        TwiceCounted(sorted, i, j);
      }
    }
  }

  lemma {:induction false} PortsMeaning(ps: seq<Process>, n: int)
    ensures n in Ports(ps) <==> Exposes(ps, n)
    decreases |ps|
  {
    if ps != [] {
      var init, last := ps[..|ps| - 1], ps[|ps| - 1];
      assert ps == init + [last];
      PortsMeaning(init, n);
      assert n in Ports(ps) <==> n in Ports(init) || n in last.expose;
    }
  }

  lemma {:induction false} NoRepeatsCount(ports: seq<int>, n: int)
    requires NoRepeats(ports)
    ensures multiset(ports)[n] <= 1
    decreases |ports|
  {
    if ports != [] {
      var init, last := ports[..|ports| - 1], ports[|ports| - 1];
      assert ports == init + [last];
      NoRepeatsCount(init, n);
      assert last !in init;
      assert multiset(init)[last] == 0;
    }
  }

  lemma TwiceCounted(ports: seq<int>, i: nat, j: nat)
    requires i < j < |ports| && ports[i] == ports[j]
    ensures multiset(ports)[ports[i]] >= 2
  {
    assert ports == ports[..j] + ports[j..];
    assert ports[i] in ports[..j] && ports[j] in ports[j..];
  }

  /**
   A rendered configuration starts campd from the runtime image's own mount,
   hands it the encoded declaration and nothing else, and has the cloud ask
   campd's control port for readiness every second for up to thirty.
   */
  lemma RenderedStart(images: ImageSet, spec: Spec, encoder: WireSpec -> string,
                      resolved: ResolvedSet)
    requires Renders(images, spec, encoder)
    requires resolved.runtime == ResolvedImage("sandcamp-runtime", "/mnt/sandcamp", images.runtime)
    ensures var config := Configured(spec, encoder(ToRuntimeSpec(spec)));
            && |config.command| == 1 && config.command[0] == resolved.runtime.mountPath + "/bin/campd"
            && config.args == ["--"]
            && config.env == map["SANDCAMP_SPEC" := encoder(ToRuntimeSpec(spec))]
            && config.probe == HttpProbe("/ready", 49_982, "HTTP", 30_000, 1_000, 2_000, 1, 30)
  {
    hide Renders, ToRuntimeSpec, PortsOf;
  }

  // --------------------------------------------------- what trimming means

  /** How many bytes of white space a text starts with, one character long. */
  function LeadingSpace(s: string): (n: nat)
    ensures n <= 3 && n <= |s| && (n > 0 ==> IsSpace(s[..n]))
  {
    if |s| >= 1 && IsSpace(s[..1]) then 1
    else if |s| >= 2 && IsSpace(s[..2]) then 2
    else if |s| >= 3 && IsSpace(s[..3]) then 3
    else 0
  }

  function TrailingSpace(s: string): (n: nat)
    ensures n <= 3 && n <= |s| && (n > 0 ==> IsSpace(s[|s| - n..]))
  {
    if |s| >= 1 && IsSpace(s[|s| - 1..]) then 1
    else if |s| >= 2 && IsSpace(s[|s| - 2..]) then 2
    else if |s| >= 3 && IsSpace(s[|s| - 3..]) then 3
    else 0
  }

  /** `strings.TrimSpace`: white space goes from the front, then from the end. */
  function TrimSpace(s: string): (t: string)
    ensures |t| <= |s|
    decreases |s|
  {
    if LeadingSpace(s) > 0 then TrimSpace(s[LeadingSpace(s)..])
    else if TrailingSpace(s) > 0 then TrimSpace(s[..|s| - TrailingSpace(s)])
    else s
  }

  /** An image is accepted exactly if its reference is not empty, is its own trimmed text and holds no zero byte. */
  lemma ImageMeaning(image: Image)
    ensures ValidImage(image) <==>
            && image.reference != "" && image.reference == TrimSpace(image.reference) && '\0' !in image.reference
            && (image.registry == "personal" || image.registry == "enterprise")
  {
    TrimmedIff(image.reference);
  }

  lemma NoSpaceAround(s: string)
    ensures IsTrimmed(s) <==> LeadingSpace(s) == 0 && TrailingSpace(s) == 0
  {
    hide IsSpace;
  }

  lemma TrimmedIff(s: string)
    ensures IsTrimmed(s) <==> s == TrimSpace(s)
  {
    hide IsSpace, IsTrimmed, LeadingSpace, TrailingSpace;
    NoSpaceAround(s);
    if LeadingSpace(s) > 0 || TrailingSpace(s) > 0 {
      assert |TrimSpace(s)| < |s|;
    }
  }

  /** A sidecar image is mounted under its own name, at its own place, from its own reference. */
  lemma ResolvedMeaning(s: SidecarImage)
    ensures Resolved(s).mountName == "sandcamp-sidecar-" + s.name && Resolved(s).image == s.image
    ensures Resolved(s).mountPath == MountPath(s.name)
  {
  }
}
