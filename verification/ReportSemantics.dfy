/** What the notification scheduler does, as functions on its whole state.  Time
    is a millisecond clock; a timer, once started, may expire at its deadline or
    later, and only once. */
module ReportSemantics {
  import opened CommonTypes
  import CText

  datatype Attribute = Pmin | Pmax | Lt | Gt | St

  datatype Timer = Stopped | Running(deadline: nat)

  /** One call of observation_to_be_sent. */
  datatype Notification = Notification(ids: seq<uint16>, number: uint16, sendObject: bool, at: nat)

  datatype BaseType = Object | ObjectInstance | Resource | ResourceInstance

  /** Conversion of a C string to a number, for float attributes. */
  type ToReal = seq<byte> -> real

  /** What write-attributes requests set, and the steps derived from it. */
  datatype Settings = Settings(
    attributes: set<Attribute>,
    pmin: int,
    pmax: int,
    gt: real,
    lt: real,
    st: real,
    high: real,
    low: real)

  const DEFAULTS := Settings({}, 1, -1, 0.0, 0.0, 0.0, 0.0, 0.0)

  datatype Handler = Handler(
    settings: Settings,
    observed: bool,
    notify: bool,
    pminExceeded: bool,
    pmaxExceeded: bool,
    number: uint16,
    current: real,
    last: real,
    ids: seq<uint16>,
    pminTimer: Timer,
    pmaxTimer: Timer,
    now: nat,
    sent: seq<Notification>)
  {
    predicate Has(a: Attribute) { a in settings.attributes }
  }

  const INITIAL := Handler(DEFAULTS, false, false, false, false, 0, 0.0, -1.0, [], Stopped, Stopped, 0, [])

  /** Seconds as an unsigned 64-bit count of milliseconds. */
  function Interval(seconds: int): nat { seconds * 1000 % TWO_TO_THE_64 }

  // ------------------------------------------------------------------- sending

  function HandleTimers(h: Handler): Handler {
    var pmin, pmax := h.settings.pmin, h.settings.pmax;
    var h1 := if !h.Has(Pmin) then h
              else if pmin == pmax then h.(pminExceeded := true)
              else h.(pminExceeded := false, pminTimer := Running(h.now + Interval(pmin)));
    if h.Has(Pmax) && pmax > 0 then h1.(pmaxTimer := Running(h.now + Interval(pmax))) else h1
  }

  function Send(h: Handler, sendObject: bool): Handler {
    var n: uint16 := (h.number + 1) % 0x1_0000;
    h.(number := n, sent := h.sent + [Notification(h.ids, n, sendObject, h.now)], ids := [])
  }

  function Report(h: Handler): Handler {
    var h1 :=
      if h.current != h.last && h.notify then
        Send(h.(pminExceeded := false, pmaxExceeded := false, notify := false), false).(pmaxTimer := Stopped)
      else if h.pmaxExceeded then Send(h, true)
      else h;
    var h2 := HandleTimers(h1);
    h2.(last := h2.current)
  }

  function ScheduleReport(h: Handler): Handler {
    var h1 := h.(notify := true);
    if !h.Has(Pmin) || h.pminExceeded then Report(h1) else h1
  }

  lemma ScheduleKeepsValue(h: Handler)
    ensures ScheduleReport(h).current == h.current
  {
  }

  /** Append unless it is there. */
  function AddOnce(ids: seq<uint16>, id: uint16): seq<uint16> { if id in ids then ids else ids + [id] }

  function Trigger(h: Handler, id: uint16): Handler {
    ScheduleReport(h.(ids := AddOnce(h.ids, id), current := 0.0, last := 1.0))
  }

  // -------------------------------------------------------------------- values

  predicate GtLtAllows(s: Settings, value: real) {
    if Lt in s.attributes && Gt in s.attributes then value > s.gt || value < s.lt
    else if Lt in s.attributes then value < s.lt
    else if Gt in s.attributes then value > s.gt
    else true
  }

  predicate ThresholdAllows(s: Settings, value: real) {
    if St in s.attributes then
      value >= s.high || value <= s.low || ((Lt in s.attributes || Gt in s.attributes) && GtLtAllows(s, value))
    else GtLtAllows(s, value)
  }

  predicate HasThresholds(s: Settings) { Lt in s.attributes || Gt in s.attributes || St in s.attributes }

  /** A value the thresholds hold back. */
  function HoldBack(h: Handler): Handler {
    var quiet := h.(notify := false, last := h.current);
    if HasThresholds(h.settings) then quiet.(pminTimer := Stopped, pminExceeded := true) else quiet
  }

  function Steps(s: Settings, value: real): Settings { s.(high := value + s.st, low := value - s.st) }

  function SetValue(h: Handler, value: real): Handler {
    var h1 := h.(current := value);
    if value == h.last then h1
    else
      var h2 := if ThresholdAllows(h.settings, value) then ScheduleReport(h1) else HoldBack(h1);
      h2.(settings := Steps(h2.settings, value))
  }

  // -------------------------------------------------------------------- timers

  function PminExpired(h: Handler): Handler {
    var h1 := h.(pminExceeded := true);
    if h.notify || (h.settings.pmin > 0 && !h.Has(Pmax)) then Report(h1) else h1
  }

  function PmaxExpired(h: Handler): Handler {
    var h1 := h.(pmaxExceeded := true);
    if h.pminExceeded || !h.Has(Pmin) then Report(h1) else h1
  }

  function StopTimers(h: Handler): Handler {
    h.(pminExceeded := false, pminTimer := Stopped, pmaxExceeded := false, pmaxTimer := Stopped)
  }

  function SetDefaults(h: Handler): Handler {
    h.(settings := DEFAULTS, pminExceeded := false, pmaxExceeded := false, last := -1.0, ids := [])
  }

  function SetUnderObservation(h: Handler, observed: bool): Handler {
    var h1 := StopTimers(h.(observed := observed));
    if observed then HandleTimers(h1) else SetDefaults(h1)
  }

  // --------------------------------------------------------------- attributes

  const PMIN: seq<byte> := [112, 109, 105, 110]
  const PMAX: seq<byte> := [112, 109, 97, 120]
  const GT: seq<byte> := [103, 116]
  const LT: seq<byte> := [108, 116]
  const ST: seq<byte> := [115, 116]
  const STP: seq<byte> := [115, 116, 112]
  const AMP: byte := 38
  const EQUAL: byte := 61

  const OPTION_LENGTH := 19
  const MAX_OPTIONS := 5

  /** The text up to the first b, or all of it. */
  function Before(s: seq<byte>, b: byte): (r: seq<byte>)
    ensures r <= s && b !in r
    ensures |r| < |s| ==> s[|r|] == b
  {
    if s == [] || s[0] == b then [] else [s[0]] + Before(s[1..], b)
  }

  function After(s: seq<byte>, b: byte): (r: seq<byte>)
    ensures s != [] ==> |r| < |s|
  {
    var n := |Before(s, b)|;
    if n < |s| then s[n + 1..] else []
  }

  function Cut(s: seq<byte>): seq<byte> { if |s| > OPTION_LENGTH then s[..OPTION_LENGTH] else s }

  /** At most n options, separated by &, each cut to the length of its slot. */
  function Options(query: seq<byte>, n: nat): seq<seq<byte>>
    decreases n
  {
    if n == 0 then []
    else if AMP in query then [Cut(Before(query, AMP))] + Options(After(query, AMP), n - 1)
    else if query != [] then [Cut(query)]
    else []
  }

  function AsInt32(n: int): int { (n + 0x8000_0000) % 0x1_0000_0000 - 0x8000_0000 }

  /** The setting a name stands for; the flag says whether there is one here. */
  function SetNamed(s: Settings, current: real, name: seq<byte>, value: seq<byte>, base: BaseType, atof: ToReal): (bool, Settings) {
    if name == PMIN then (true, s.(pmin := AsInt32(CText.ParseInteger(value)), attributes := s.attributes + {Pmin}))
    else if name == PMAX then (true, s.(pmax := AsInt32(CText.ParseInteger(value)), attributes := s.attributes + {Pmax}))
    else if name == GT && base == Resource then (true, s.(gt := atof(value), attributes := s.attributes + {Gt}))
    else if name == LT && base == Resource then (true, s.(lt := atof(value), attributes := s.attributes + {Lt}))
    else if (name == ST || name == STP) && base == Resource then
      (true, Steps(s.(st := atof(value), attributes := s.attributes + {St}), current))
    else (false, s)
  }

  /** One option, name=value; the flag says whether it was accepted. */
  function SetAttribute(s: Settings, current: real, option: seq<byte>, base: BaseType, kind: DataType, atof: ToReal): (bool, Settings) {
    var name := Before(option, EQUAL);
    var value := After(option, EQUAL);
    if value == [] then (false, s)
    else
      var (known, s1) := SetNamed(s, current, name, value, base, atof);
      (known && (kind == INTEGER || kind == FLOAT || !HasThresholds(s1)), s1)
  }

  /** Options in turn, up to the first that is refused. */
  function SetAttributes(s: Settings, current: real, options: seq<seq<byte>>, base: BaseType, kind: DataType, atof: ToReal): (bool, Settings)
    decreases |options|
  {
    if options == [] then (true, s)
    else
      var (ok, s1) := SetAttribute(s, current, options[0], base, kind, atof);
      if ok then SetAttributes(s1, current, options[1..], base, kind, atof) else (false, s1)
  }

  predicate ValidSettings(s: Settings) {
    && (Pmax in s.attributes && s.pmax >= -1 ==> s.pmin <= s.pmax)
    && (Gt in s.attributes ==> s.lt + 2.0 * s.st < s.gt)
  }

  /** The distance of neighbouring floats at m, for a significand of 24 bits. */
  function Spacing(m: nat): (u: nat)
    ensures u >= 1 && (m < 0x100_0000 ==> u == 1)
  {
    if m < 0x100_0000 then 1 else 2 * Spacing(m / 2)
  }

  /** The float nearest to m, ties to even. */
  function Nearest(m: nat): int {
    var u := Spacing(m);
    var q, r := m / u, m % u;
    if 2 * r < u || (2 * r == u && q % 2 == 0) then q * u else (q + 1) * u
  }

  /** An int32_t saved in a float. */
  function ThroughFloat(n: int): int { if n < 0 then -Nearest(-n) else Nearest(n) }

  predicate IsFloat(n: int) { (if n < 0 then -n else n) % Spacing(if n < 0 then -n else n) == 0 }

  /** The settings saved before a query with several options; the periods go through floats. */
  function Restored(s: Settings): Settings { s.(pmin := ThroughFloat(s.pmin), pmax := ThroughFloat(s.pmax)) }

  function ParseQuery(s: Settings, current: real, query: seq<byte>, base: BaseType, kind: DataType, atof: ToReal): (bool, Settings) {
    if AMP in query then
      var (ok, s1) := SetAttributes(s, current, Options(query, MAX_OPTIONS), base, kind, atof);
      if ok then (ValidSettings(s1), s1) else (false, Restored(s))
    else
      var (ok, s1) := SetAttribute(s, current, query, base, kind, atof);
      (ok && ValidSettings(s1), s1)
  }

  /** What a write-attributes request does once its query has been parsed. */
  function WriteAttributes(h: Handler, accepted: bool, settings: Settings): Handler {
    var h1 := h.(settings := settings);
    if !accepted then SetDefaults(h1) else if h1.observed then SetUnderObservation(h1, true) else h1
  }

  /** A write-attributes request on the node that owns the handler. */
  function HandleObservationAttribute(h: Handler, query: seq<byte>, base: BaseType, kind: DataType, atof: ToReal): (bool, Handler) {
    var (accepted, settings) := ParseQuery(h.settings, h.current, query, base, kind, atof);
    (accepted, WriteAttributes(h, accepted, settings))
  }
}
