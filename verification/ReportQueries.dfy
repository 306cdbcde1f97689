/** What a write-attributes query says: which bytes set which attribute to which value,
    how several are joined, and which are refused. */
module ReportQueries {
  import opened CommonTypes
  import opened ReportSemantics
  import CText

  /** One attribute and its new value: a number of seconds, or the text of a real. */
  datatype Assignment =
    | SetPmin(seconds: int) | SetPmax(seconds: int)
    | SetGt(text: seq<byte>) | SetLt(text: seq<byte>) | SetSt(text: seq<byte>) | SetStp(text: seq<byte>)
  {
    predicate IsPeriod() { SetPmin? || SetPmax? }

    /** The number fits an int32_t; the text is not empty and ends the option. */
    predicate IsProper() {
      if IsPeriod() then -0x8000_0000 <= seconds < 0x8000_0000 else text != [] && 38 !in text
    }
  }

  /** Its bytes: the name, an equals sign, the value. */
  function Text(a: Assignment): seq<byte> {
    match a
    case SetPmin(n) => [112, 109, 105, 110, 61] + CText.DecimalText(n)
    case SetPmax(n) => [112, 109, 97, 120, 61] + CText.DecimalText(n)
    case SetGt(text) => [103, 116, 61] + text
    case SetLt(text) => [108, 116, 61] + text
    case SetSt(text) => [115, 116, 61] + text
    case SetStp(text) => [115, 116, 112, 61] + text
  }

  /** What it sets, and nothing else; a step also moves the bounds around the value. */
  function Effect(s: Settings, current: real, a: Assignment, atof: ToReal): Settings {
    match a
    case SetPmin(n) => s.(pmin := n, attributes := s.attributes + {Pmin})
    case SetPmax(n) => s.(pmax := n, attributes := s.attributes + {Pmax})
    case SetGt(text) => s.(gt := atof(text), attributes := s.attributes + {Gt})
    case SetLt(text) => s.(lt := atof(text), attributes := s.attributes + {Lt})
    case SetSt(text) =>
      var st := atof(text);
      s.(st := st, high := current + st, low := current - st, attributes := s.attributes + {St})
    case SetStp(text) =>
      var st := atof(text);
      s.(st := st, high := current + st, low := current - st, attributes := s.attributes + {St})
  }

  function Effects(s: Settings, current: real, all: seq<Assignment>, atof: ToReal): Settings
    decreases |all|
  {
    if all == [] then s else Effects(Effect(s, current, all[0], atof), current, all[1..], atof)
  }

  /** Joined by ampersands. */
  function Joined(texts: seq<seq<byte>>): seq<byte> {
    if texts == [] then [] else if |texts| == 1 then texts[0] else texts[0] + [38] + Joined(texts[1..])
  }

  function Texts(all: seq<Assignment>): seq<seq<byte>> {
    if all == [] then [] else [Text(all[0])] + Texts(all[1..])
  }

  /** The periods can be set on every node; a threshold only on a resource, and with one set
      nothing can be unless the node is a number. */
  predicate Settable(s: Settings, all: seq<Assignment>, base: BaseType, kind: DataType) {
    && (base != Resource ==> forall a | a in all :: a.IsPeriod())
    && (kind != INTEGER && kind != FLOAT ==>
          s.attributes <= {Pmin, Pmax} && forall a | a in all :: a.IsPeriod())
  }

  /** No contradiction: the minimum period does not exceed a maximum one, and between the
      lower and the upper bound there is room for more than two steps. */
  predicate Consistent(s: Settings) {
    && (Pmax in s.attributes && s.pmax >= -1 ==> s.pmin <= s.pmax)
    && (Gt in s.attributes ==> s.lt + s.st + s.st < s.gt)
  }

  lemma ConsistentMeansValid(s: Settings)
    ensures ValidSettings(s) <==> Consistent(s)
  {
  }

  // ------------------------------------------------------------------ one option

  lemma {:induction false} BeforeFirst(name: seq<byte>, b: byte, rest: seq<byte>)
    requires b !in name
    ensures Before(name + [b] + rest, b) == name && After(name + [b] + rest, b) == rest
  {
    var s := name + [b] + rest;
    if name != [] {
      BeforeFirst(name[1..], b, rest);
      assert s[1..] == name[1..] + [b] + rest;
      assert s[|name| + 1..] == rest;
    } else {
      assert s[1..] == rest;
    }
  }

  lemma BeforeAll(s: seq<byte>, b: byte)
    requires b !in s
    ensures Before(s, b) == s && After(s, b) == []
  {
  }

  lemma DecimalTextIsPlain(n: int)
    ensures CText.DecimalText(n) != [] && 38 !in CText.DecimalText(n)
  {
    var d := CText.Digits(if n < 0 then -n else n);
    assert forall k | 0 <= k < |d| :: CText.IsDigit(d[k]);
  }

  lemma PeriodValue(n: int)
    requires -0x8000_0000 <= n < 0x8000_0000
    ensures AsInt32(CText.ParseInteger(CText.DecimalText(n))) == n
  {
    CText.DecimalRoundTrip(n, []);
    assert CText.DecimalText(n) + [] == CText.DecimalText(n);
    hide CText.ParseInteger, CText.DecimalText;
  }

  function NameOf(a: Assignment): seq<byte> {
    match a
    case SetPmin(_) => [112, 109, 105, 110]
    case SetPmax(_) => [112, 109, 97, 120]
    case SetGt(_) => [103, 116]
    case SetLt(_) => [108, 116]
    case SetSt(_) => [115, 116]
    case SetStp(_) => [115, 116, 112]
  }

  function ValueOf(a: Assignment): seq<byte> { if a.IsPeriod() then CText.DecimalText(a.seconds) else a.text }

  lemma TextSplits(a: Assignment)
    requires a.IsProper()
    ensures Before(Text(a), EQUAL) == NameOf(a) && After(Text(a), EQUAL) == ValueOf(a) != []
    ensures Text(a) != [] && 38 !in Text(a)
  {
    hide Before, After, CText.DecimalText;
    assert Text(a) == NameOf(a) + [61] + ValueOf(a);
    BeforeFirst(NameOf(a), 61, ValueOf(a));
    if a.IsPeriod() {
      DecimalTextIsPlain(a.seconds);
    }
  }

  lemma OnlyPeriodsSet(s: Settings)
    ensures !HasThresholds(s) <==> s.attributes <= {Pmin, Pmax}
  {
    if !HasThresholds(s) {
      forall a | a in s.attributes ensures a in {Pmin, Pmax} {
        match a
        case Pmin =>
        case Pmax =>
        case _ =>
      }
    }
  }

  /** Where thresholds may be set, an option has exactly its effect. */
  lemma OptionHasEffect(s: Settings, current: real, a: Assignment, base: BaseType, kind: DataType, atof: ToReal)
    requires a.IsProper()
    ensures var here := base == Resource || a.IsPeriod();
      var e := Effect(s, current, a, atof);
      SetAttribute(s, current, Text(a), base, kind, atof) ==
      (here && (kind == INTEGER || kind == FLOAT || e.attributes <= {Pmin, Pmax}), if here then e else s)
  {
    TextSplits(a);
    if a.IsPeriod() {
      PeriodValue(a.seconds);
    }
    hide Before, After, Text, AsInt32, CText.ParseInteger, CText.DecimalText;
    var e := Effect(s, current, a, atof);
    OnlyPeriodsSet(e);
    var (known, s1) := SetNamed(s, current, NameOf(a), ValueOf(a), base, atof);
    assert known == (base == Resource || a.IsPeriod());
    assert s1 == if known then e else s;
  }

  /** A query of one option: on a node where it can be set it sets exactly that, and is
      accepted if the result is consistent. */
  lemma OneOption(s: Settings, current: real, a: Assignment, base: BaseType, kind: DataType, atof: ToReal)
    requires a.IsProper()
    ensures var e := Effect(s, current, a, atof);
      && (Settable(s, [a], base, kind) ==> ParseQuery(s, current, Text(a), base, kind, atof) == (Consistent(e), e))
      && (!Settable(s, [a], base, kind) ==> !ParseQuery(s, current, Text(a), base, kind, atof).0)
  {
    TextSplits(a);
    OptionHasEffect(s, current, a, base, kind, atof);
    var e := Effect(s, current, a, atof);
    ConsistentMeansValid(e);
    hide SetAttribute, Text, ValidSettings, Consistent;
    assert a in [a];
  }

  /** Whatever else the option says is refused and sets nothing: another name, or no value. */
  lemma AnotherOptionIsRefused(s: Settings, current: real, name: seq<byte>, value: seq<byte>, base: BaseType, kind: DataType, atof: ToReal)
    requires 61 !in name && 38 !in name && 38 !in value
    requires value == [] || name !in {[112, 109, 105, 110], [112, 109, 97, 120], [103, 116], [108, 116], [115, 116], [115, 116, 112]}
    ensures ParseQuery(s, current, name + [61] + value, base, kind, atof) == (false, s)
    ensures ParseQuery(s, current, name, base, kind, atof) == (false, s)
  {
    BeforeFirst(name, 61, value);
    BeforeAll(name, 61);
    hide Before, After;
  }

  // -------------------------------------------------------------- several options

  predicate Plain(texts: seq<seq<byte>>) { forall k | 0 <= k < |texts| :: texts[k] != [] && 38 !in texts[k] }

  function FirstFew(texts: seq<seq<byte>>, n: nat): seq<seq<byte>>
    decreases n
  {
    if n == 0 || texts == [] then []
    else [if |texts[0]| > 19 then texts[0][..19] else texts[0]] + FirstFew(texts[1..], n - 1)
  }

  /** The options of a joined query are the first few texts, each cut to 19 bytes. */
  lemma {:induction false} OptionsOfJoined(texts: seq<seq<byte>>, n: nat)
    requires Plain(texts)
    ensures Options(Joined(texts), n) == FirstFew(texts, n)
    decreases n
  {
    hide Options, Joined, FirstFew;
    NoOptions(texts, n);
    if n > 0 && texts != [] {
      FirstText(texts, n);
      if |texts| == 1 {
        LastOption(texts[0], n);
        NoOptions(texts[1..], n - 1);
      } else {
        OptionsOfJoined(texts[1..], n - 1);
        FirstOption(texts[0], Joined(texts[1..]), n);
      }
    }
  }

  lemma NoOptions(texts: seq<seq<byte>>, n: nat)
    ensures n == 0 || texts == [] ==> Options(Joined(texts), n) == [] == FirstFew(texts, n)
  {
    if n == 0 {
      hide Joined;
    }
  }

  lemma FirstText(texts: seq<seq<byte>>, n: nat)
    requires n > 0 && texts != []
    ensures Joined(texts) == if |texts| == 1 then texts[0] else texts[0] + [38] + Joined(texts[1..])
    ensures FirstFew(texts, n) ==
            [if |texts[0]| > 19 then texts[0][..19] else texts[0]] + FirstFew(texts[1..], n - 1)
  {
  }

  lemma LastOption(t: seq<byte>, n: nat)
    requires n > 0 && t != [] && 38 !in t
    ensures Options(t, n) == [if |t| > 19 then t[..19] else t]
  {
  }

  lemma FirstOption(t: seq<byte>, rest: seq<byte>, n: nat)
    requires n > 0 && 38 !in t
    ensures Options(t + [38] + rest, n) == [if |t| > 19 then t[..19] else t] + Options(rest, n - 1)
  {
    BeforeFirst(t, 38, rest);
    hide Before, After;
    assert (t + [38] + rest)[|t|] == 38;
  }

  lemma TextsArePlain(all: seq<Assignment>)
    requires forall a | a in all :: a.IsProper()
    ensures Plain(Texts(all)) && |Texts(all)| == |all|
    ensures forall k | 0 <= k < |all| :: Texts(all)[k] == Text(all[k])
  {
    if all != [] {
      assert all[0] in all;
      TextSplits(all[0]);
      TextsArePlain(all[1..]);
    }
  }

  lemma {:induction false} ShortTextsAreWhole(all: seq<Assignment>, n: nat)
    requires forall a | a in all :: |Text(a)| <= 19
    ensures FirstFew(Texts(all), n) == Texts(if |all| > n then all[..n] else all)
    decreases n
  {
    if n > 0 && all != [] {
      assert all[0] in all;
      ShortTextsAreWhole(all[1..], n - 1);
      var few := if |all| > n then all[..n] else all;
      assert few[0] == all[0] && few[1..] == if |all| > n then all[1..][..n - 1] else all[1..];
    }
  }

  /** Options have their effects one after the other, unless one cannot be set. */
  lemma {:induction false} OptionsHaveEffects(s: Settings, current: real, all: seq<Assignment>, base: BaseType, kind: DataType, atof: ToReal)
    requires forall a | a in all :: a.IsProper()
    ensures all != [] && !Settable(s, all, base, kind) ==> !SetAttributes(s, current, Texts(all), base, kind, atof).0
    ensures Settable(s, all, base, kind) ==>
              SetAttributes(s, current, Texts(all), base, kind, atof) == (true, Effects(s, current, all, atof))
    decreases |all|
  {
    if all != [] {
      var e := Effect(s, current, all[0], atof);
      assert all[0] in all;
      OptionHasEffect(s, current, all[0], base, kind, atof);
      OptionsHaveEffects(e, current, all[1..], base, kind, atof);
      SettableInTurn(s, current, all, base, kind, atof);
      hide SetAttribute, Settable, Effect, Text;
    }
  }

  lemma SettableInTurn(s: Settings, current: real, all: seq<Assignment>, base: BaseType, kind: DataType, atof: ToReal)
    requires all != []
    ensures var e := Effect(s, current, all[0], atof);
      Settable(s, all, base, kind) <==>
      && (base == Resource || all[0].IsPeriod())
      && (kind == INTEGER || kind == FLOAT || e.attributes <= {Pmin, Pmax})
      && (all[1..] == [] || Settable(e, all[1..], base, kind))
  {
    var p, q := forall a | a in all :: a.IsPeriod(), forall a | a in all[1..] :: a.IsPeriod();
    assert p <==> all[0].IsPeriod() && q by {
      assert forall a | a in all :: a == all[0] || a in all[1..];
    }
    var e := Effect(s, current, all[0], atof);
    assert all[0].IsPeriod() ==> (e.attributes <= {Pmin, Pmax} <==> s.attributes <= {Pmin, Pmax});
    assert !all[0].IsPeriod() ==> !(e.attributes <= {Pmin, Pmax});
    assert all[1..] == [] ==> q;
    hide Effect;
  }

  /** A query of several options, each at most 19 bytes long: the first five are set, in
      turn, and accepted if the result is consistent; if one of them cannot be set, all are
      undone. */
  lemma SeveralOptions(s: Settings, current: real, all: seq<Assignment>, base: BaseType, kind: DataType, atof: ToReal)
    requires |all| >= 2 && forall a | a in all :: a.IsProper() && |Text(a)| <= 19
    ensures var few := if |all| > 5 then all[..5] else all;
      var e := Effects(s, current, few, atof);
      ParseQuery(s, current, Joined(Texts(all)), base, kind, atof) ==
      if Settable(s, few, base, kind) then (Consistent(e), e) else (false, Restored(s))
  {
    var few := if |all| > 5 then all[..5] else all;
    var e := Effects(s, current, few, atof);
    TextsArePlain(all);
    OptionsOfJoined(Texts(all), 5);
    ShortTextsAreWhole(all, 5);
    OptionsHaveEffects(s, current, few, base, kind, atof);
    ConsistentMeansValid(e);
    assert Joined(Texts(all)) == Texts(all)[0] + [38] + Joined(Texts(all)[1..]);
    assert AMP in Joined(Texts(all)) by {
      assert Joined(Texts(all))[|Texts(all)[0]|] == AMP;
    }
    hide Options, Joined, Texts, FirstFew, Effects, Settable, Restored, Consistent, ValidSettings, SetAttributes, Text;
  }
}
