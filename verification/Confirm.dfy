/** Confirmation of an oracle update from the wasm events of its transaction. */
module Confirm {
  import opened Units
  import Oracle

  datatype Attribute = Attribute(key: string, value: string)

  datatype TxEvent = TxEvent(ty: string, attributes: seq<Attribute>)

  type Group = seq<Attribute>

  const ADDRESS_KEY := "_contract_address"
  const ACTION_KEY := "action"
  const RATE_KEY := "rate"
  const UPDATE_ACTION := "update_rate"

  function Lower(c: char): char {
    if 'A' <= c <= 'Z' then c - 'A' + 'a' else c
  }

  /** ASCII case-insensitive equality. */
  predicate EqIgnoreCase(a: string, b: string) {
    |a| == |b| && forall i :: 0 <= i < |a| ==> Lower(a[i]) == Lower(b[i])
  }

  /** The same character, or the two cases of one ASCII letter. */
  predicate SameLetter(x: char, y: char) {
    || x == y
    || ('A' <= x <= 'Z' && y as int == x as int + 32)
    || ('A' <= y <= 'Z' && x as int == y as int + 32)
  }

  predicate HasCapitals(s: string) {
    exists c <- s :: 'A' <= c <= 'Z'
  }

  /** What the comparison ignores is the case of ASCII letters and nothing else: strings
      without capitals, as addresses are written, are equal only to themselves. */
  lemma EqIgnoreCaseIff(a: string, b: string)
    ensures EqIgnoreCase(a, b) <==> |a| == |b| && forall i :: 0 <= i < |a| ==> SameLetter(a[i], b[i])
    ensures !HasCapitals(a) && !HasCapitals(b) ==> (EqIgnoreCase(a, b) <==> a == b)
  {
    if !HasCapitals(a) && !HasCapitals(b) && EqIgnoreCase(a, b) {
      assert forall i :: 0 <= i < |a| ==> a[i] in a && b[i] in b;
      assert a == b;
    }
  }

  // ---------------------------------------------------------------- grouping

  /** The groups of one event: an address attribute opens a group, anything before the
      first one is dropped, every other attribute joins the group that is open. */
  function EventGroups(attributes: seq<Attribute>): seq<Group> {
    if attributes == [] then []
    else
      var gs := EventGroups(attributes[..|attributes| - 1]);
      var a := attributes[|attributes| - 1];
      if a.key == ADDRESS_KEY then gs + [[a]]
      else if gs == [] then []
      else gs[..|gs| - 1] + [gs[|gs| - 1] + [a]]
  }

  predicate IsWasm(e: TxEvent) {
    EqIgnoreCase(e.ty, "wasm")
  }

  function Groups(events: seq<TxEvent>): seq<Group> {
    if events == [] then []
    else
      var e := events[|events| - 1];
      Groups(events[..|events| - 1]) + if IsWasm(e) then EventGroups(e.attributes) else []
  }

  function Open(current: Option<Group>): seq<Group> {
    match current
    case None => []
    case Some(g) => [g]
  }

  /** Adding one attribute to the groups built so far, the last of which may be open. */
  lemma OneMoreAttribute(groups: seq<Group>, current: Option<Group>, done: seq<Group>, attributes: seq<Attribute>,
                         j: nat)
    requires j < |attributes|
    requires groups + Open(current) == done + EventGroups(attributes[..j])
    requires current.None? ==> groups == done
    requires current.Some? ==> |groups| >= |done|
    ensures var a := attributes[j];
      done + EventGroups(attributes[..j + 1])
      == if a.key == ADDRESS_KEY then groups + Open(current) + [[a]]
         else if current.Some? then groups + [current.value + [a]]
         else groups
  {
    assert attributes[..j + 1][..j] == attributes[..j];
    var built := EventGroups(attributes[..j]);
    if current.Some? {
      LastOf(groups, current.value, done, built);
    } else {
      assert groups == done + built;
      assert built == [] by {
        assert |groups| == |done| + |built|;
      }
    }
  }

  /** The open group is the last group built so far. */
  lemma LastOf(groups: seq<Group>, open: Group, done: seq<Group>, built: seq<Group>)
    requires groups + [open] == done + built
    requires |groups| >= |done|
    ensures built != [] && built[|built| - 1] == open
    ensures groups == done + built[..|built| - 1]
  {
    assert |groups| + 1 == |done| + |built|;
    assert (done + built)[|done| + |built| - 1] == built[|built| - 1];
    assert groups == (groups + [open])[..|groups|] == (done + built)[..|groups|] == done + built[..|built| - 1];
  }

  /** Builds the groups in place, with the open group apart from the finished ones. */
  method WasmAttrGroups(events: seq<TxEvent>) returns (groups: seq<Group>)
    ensures groups == Groups(events)
  {
    groups := [];
    for i := 0 to |events|
      invariant groups == Groups(events[..i])
    {
      var ev := events[i];
      assert events[..i + 1][..i] == events[..i];
      if !IsWasm(ev) {
        continue;
      }
      ghost var done := groups;
      assert Groups(events[..i + 1]) == done + EventGroups(ev.attributes);
      var current: Option<Group> := None;
      for j := 0 to |ev.attributes|
        invariant groups + Open(current) == done + EventGroups(ev.attributes[..j])
        invariant current.None? ==> groups == done
        invariant current.Some? ==> |groups| >= |done|
      {
        var attr := ev.attributes[j];
        OneMoreAttribute(groups, current, done, ev.attributes, j);
        if attr.key == ADDRESS_KEY {
          if current.Some? {
            groups := groups + [current.value];
          }
          current := Some([attr]);
        } else if current.Some? {
          current := Some(current.value + [attr]);
        }
      }
      assert ev.attributes[..|ev.attributes|] == ev.attributes;
      if current.Some? {
        groups := groups + [current.value];
      }
    }
    assert events[..|events|] == events;
  }

  /** A group has exactly one address attribute, at its head. */
  predicate WellHeaded(g: Group) {
    g != [] && g[0].key == ADDRESS_KEY && forall i :: 1 <= i < |g| ==> g[i].key != ADDRESS_KEY
  }

  function Flatten(gs: seq<Group>): seq<Attribute> {
    if gs == [] then [] else Flatten(gs[..|gs| - 1]) + gs[|gs| - 1]
  }

  function FromFirstAddress(attributes: seq<Attribute>): seq<Attribute> {
    if attributes == [] then []
    else if attributes[0].key == ADDRESS_KEY then attributes
    else FromFirstAddress(attributes[1..])
  }

  /** All attributes of the wasm events, each event from its first address attribute on. */
  function WasmAttributes(events: seq<TxEvent>): seq<Attribute> {
    if events == [] then []
    else
      var e := events[|events| - 1];
      WasmAttributes(events[..|events| - 1]) + if IsWasm(e) then FromFirstAddress(e.attributes) else []
  }

  lemma {:induction false} FromFirstAppend(attributes: seq<Attribute>, a: Attribute)
    ensures var kept := FromFirstAddress(attributes);
      FromFirstAddress(attributes + [a]) == if kept != [] || a.key == ADDRESS_KEY then kept + [a] else []
  {
    var more := attributes + [a];
    if attributes == [] {
      assert more == [a] && [a][1..] == [];
    } else if attributes[0].key != ADDRESS_KEY {
      assert more[1..] == attributes[1..] + [a];
      FromFirstAppend(attributes[1..], a);
    }
  }

  lemma {:induction false} FlattenAppend(xs: seq<Group>, ys: seq<Group>)
    ensures Flatten(xs + ys) == Flatten(xs) + Flatten(ys)
  {
    if ys == [] {
      assert xs + ys == xs;
    } else {
      var init := ys[..|ys| - 1];
      assert (xs + ys)[..|xs + ys| - 1] == xs + init;
      FlattenAppend(xs, init);
    }
  }

  lemma {:induction false} EventGroupsFlatten(attributes: seq<Attribute>)
    ensures Flatten(EventGroups(attributes)) == FromFirstAddress(attributes)
    ensures forall g <- EventGroups(attributes) :: WellHeaded(g)
  {
    if attributes != [] {
      var init, a := attributes[..|attributes| - 1], attributes[|attributes| - 1];
      assert attributes == init + [a];
      EventGroupsFlatten(init);
      FromFirstAppend(init, a);
      var gs := EventGroups(init);
      if a.key != ADDRESS_KEY && gs != [] {
        var last := gs[|gs| - 1];
        assert WellHeaded(last) && WellHeaded(last + [a]);
        assert EventGroups(attributes)[..|gs| - 1] == gs[..|gs| - 1];
      } else if a.key == ADDRESS_KEY {
        assert EventGroups(attributes)[..|gs|] == gs;
      }
    }
  }

  /** Grouping loses nothing: the groups, put end to end, are the wasm attributes with each
      event's prefix before its first address dropped, and every group has exactly one
      address attribute, at its head. */
  lemma {:induction false} GroupsFlatten(events: seq<TxEvent>)
    ensures Flatten(Groups(events)) == WasmAttributes(events)
    ensures forall g <- Groups(events) :: WellHeaded(g)
  {
    if events != [] {
      var init, e := events[..|events| - 1], events[|events| - 1];
      GroupsFlatten(init);
      EventGroupsFlatten(e.attributes);
      FlattenAppend(Groups(init), if IsWasm(e) then EventGroups(e.attributes) else []);
    }
  }

  /** The two properties above determine the grouping: no other list of well-headed groups
      has the same attributes end to end. */
  lemma {:induction false} GroupingIsUnique(xs: seq<Group>, ys: seq<Group>)
    requires Flatten(xs) == Flatten(ys)
    requires forall g <- xs :: WellHeaded(g)
    requires forall g <- ys :: WellHeaded(g)
    ensures xs == ys
    decreases |xs|
  {
    if xs == [] {
      FlattenNonempty(ys);
    } else if ys == [] {
      FlattenNonempty(xs);
    } else {
      var x, y := xs[|xs| - 1], ys[|ys| - 1];
      var fx, fy := Flatten(xs[..|xs| - 1]), Flatten(ys[..|ys| - 1]);
      LastAddress(fx, x, fy, y);
      GroupingIsUnique(xs[..|xs| - 1], ys[..|ys| - 1]);
      assert xs == xs[..|xs| - 1] + [x] && ys == ys[..|ys| - 1] + [y];
    }
  }

  lemma FlattenNonempty(gs: seq<Group>)
    requires forall g <- gs :: WellHeaded(g)
    ensures gs != [] ==> Flatten(gs) != []
  {
    if gs != [] {
      assert WellHeaded(gs[|gs| - 1]);
    }
  }

  /** The last group starts at the last address attribute. */
  lemma LastAddress(fx: seq<Attribute>, x: Group, fy: seq<Attribute>, y: Group)
    requires WellHeaded(x) && WellHeaded(y) && fx + x == fy + y
    ensures fx == fy && x == y
  {
    var s := fx + x;
    assert s[|fx|] == x[0] && s[|fy|] == y[0];
    assert forall i :: |fx| < i < |s| ==> s[i] == x[i - |fx|] && s[i].key != ADDRESS_KEY;
    assert forall i :: |fy| < i < |s| ==> s[i] == y[i - |fy|] && s[i].key != ADDRESS_KEY;
    assert |fx| == |fy|;
    assert fx == s[..|fx|] && fy == s[..|fx|];
    assert x == s[|fx|..] && y == s[|fx|..];
  }

  // ---------------------------------------------------------------- numbers in attributes

  predicate IsSpace(c: char) {
    || '\U{0009}' <= c <= '\U{000D}' || c == '\U{0020}' || c == '\U{0085}' || c == '\U{00A0}' || c == '\U{1680}'
    || '\U{2000}' <= c <= '\U{200A}' || c == '\U{2028}' || c == '\U{2029}' || c == '\U{202F}' || c == '\U{205F}'
    || c == '\U{3000}'
  }

  function TrimStart(s: string): string {
    if s != "" && IsSpace(s[0]) then TrimStart(s[1..]) else s
  }

  function TrimEnd(s: string): string {
    if s != "" && IsSpace(s[|s| - 1]) then TrimEnd(s[..|s| - 1]) else s
  }

  predicate IsDigit(c: char) {
    '0' <= c <= '9'
  }

  /** The value of a nonempty string of decimal digits. */
  function DigitsValue(s: string): Option<nat> {
    if s == "" || !IsDigit(s[|s| - 1]) then None
    else
      var d := s[|s| - 1] as int - '0' as int;
      if |s| == 1 then Some(d)
      else
        match DigitsValue(s[..|s| - 1])
        case None => None
        case Some(n) => Some(10 * n + d)
  }

  /** A 128-bit decimal number, with an optional plus sign. */
  function ParseUint128(s: string): Option<Uint128> {
    match DigitsValue(if s != "" && s[0] == '+' then s[1..] else s)
    case None => None
    case Some(n) => if n <= U128_MAX then Some(n) else None
  }

  function ParseRate(s: string): Option<Uint128> {
    ParseUint128(TrimEnd(TrimStart(s)))
  }

  /** How the contract writes a rate into an attribute. */
  function Decimal(n: nat): string {
    var last := [(n % 10 + '0' as int) as char];
    if n < 10 then last else Decimal(n / 10) + last
  }

  lemma {:induction false} DecimalDigits(n: nat)
    ensures DigitsValue(Decimal(n)) == Some(n)
    ensures Decimal(n) != "" && forall c <- Decimal(n) :: IsDigit(c)
  {
    var d := Decimal(n);
    assert d[|d| - 1] == (n % 10 + '0' as int) as char;
    if n >= 10 {
      DecimalDigits(n / 10);
      assert d[..|d| - 1] == Decimal(n / 10);
    }
  }

  function Zeros(k: nat): string {
    if k == 0 then "" else "0" + Zeros(k - 1)
  }

  predicate Blank(s: string) {
    forall c <- s :: IsSpace(c)
  }

  /** How a number may be spelled: white space around it, one plus sign, leading zeros. */
  predicate IsSpelling(s: string, n: nat, before: string, plus: bool, zeros: nat, after: string) {
    && Blank(before) && Blank(after)
    && s == before + (Sign(plus) + Zeros(zeros) + Decimal(n)) + after
  }

  ghost predicate Spells(s: string, n: nat) {
    exists before, plus, zeros, after :: IsSpelling(s, n, before, plus, zeros, after)
  }

  lemma {:induction false} TrimStartIs(before: string, s: string)
    requires Blank(before) && s != "" && !IsSpace(s[0])
    ensures TrimStart(before + s) == s
  {
    if before != "" {
      assert (before + s)[1..] == before[1..] + s;
      assert before[0] in before && forall c <- before[1..] :: c in before;
      TrimStartIs(before[1..], s);
    } else {
      assert before + s == s;
    }
  }

  lemma {:induction false} TrimEndIs(s: string, after: string)
    requires Blank(after) && s != "" && !IsSpace(s[|s| - 1])
    ensures TrimEnd(s + after) == s
  {
    if after != "" {
      var init := after[..|after| - 1];
      assert (s + after)[..|s + after| - 1] == s + init;
      assert after[|after| - 1] in after && forall c <- init :: c in after;
      TrimEndIs(s, init);
    } else {
      assert s + after == s;
    }
  }

  lemma {:induction false} TrimStartLeaves(s: string) returns (before: string)
    ensures Blank(before) && s == before + TrimStart(s)
  {
    if s != "" && IsSpace(s[0]) {
      var rest := TrimStartLeaves(s[1..]);
      before := [s[0]] + rest;
    } else {
      before := "";
    }
  }

  lemma {:induction false} TrimEndLeaves(s: string) returns (after: string)
    ensures Blank(after) && s == TrimEnd(s) + after
  {
    if s != "" && IsSpace(s[|s| - 1]) {
      var rest := TrimEndLeaves(s[..|s| - 1]);
      after := rest + [s[|s| - 1]];
    } else {
      after := "";
    }
  }

  lemma Regrouped(a: string, b: string, c: string)
    ensures a + b + c == a + (b + c)
  {
  }

  lemma {:induction false} LeadingZero(s: string)
    requires s != ""
    ensures DigitsValue("0" + s) == DigitsValue(s)
  {
    var init := s[..|s| - 1];
    assert ("0" + s)[..|s|] == "0" + init;
    if init != "" {
      LeadingZero(init);
    } else {
      assert "0" + init == "0";
    }
  }

  lemma {:induction false} ZerosBefore(zeros: nat, digits: string, n: nat)
    requires DigitsValue(digits) == Some(n) && forall c <- digits :: IsDigit(c)
    ensures DigitsValue(Zeros(zeros) + digits) == Some(n)
    ensures forall c <- Zeros(zeros) + digits :: IsDigit(c)
  {
    if zeros == 0 {
      assert Zeros(0) + digits == digits;
    } else {
      var rest := Zeros(zeros - 1) + digits;
      ZerosBefore(zeros - 1, digits, n);
      LeadingZero(rest);
      Regrouped("0", Zeros(zeros - 1), digits);
    }
  }

  lemma ZerosValue(zeros: nat, n: nat)
    ensures DigitsValue(Zeros(zeros) + Decimal(n)) == Some(n)
    ensures forall c <- Zeros(zeros) + Decimal(n) :: IsDigit(c)
  {
    DecimalDigits(n);
    ZerosBefore(zeros, Decimal(n), n);
  }

  lemma {:induction false} OneMoreZero(zeros: nat)
    ensures Zeros(zeros) + "0" == Zeros(zeros + 1)
  {
    if zeros > 0 {
      OneMoreZero(zeros - 1);
      assert Zeros(zeros) + "0" == "0" + (Zeros(zeros - 1) + "0");
    }
  }

  lemma OneMoreDigit(m: nat, c: char)
    requires IsDigit(c)
    ensures var n := 10 * m + (c as int - '0' as int);
      Decimal(n) == if m == 0 then [c] else Decimal(m) + [c]
  {
    var n := 10 * m + (c as int - '0' as int);
    assert n % 10 == c as int - '0' as int && n / 10 == m;
  }

  lemma {:induction false} DigitsAreDecimal(s: string) returns (zeros: nat)
    requires DigitsValue(s).Some?
    ensures s == Zeros(zeros) + Decimal(DigitsValue(s).value)
  {
    var init, c := s[..|s| - 1], s[|s| - 1];
    assert s == init + [c];
    if |s| == 1 {
      OneMoreDigit(0, c);
      zeros := 0;
    } else {
      var m := DigitsValue(init).value;
      zeros := DigitsAreDecimal(init);
      OneMoreDigit(m, c);
      if m == 0 {
        OneMoreZero(zeros);
        zeros := zeros + 1;
      } else {
        Regrouped(Zeros(zeros), Decimal(m), [c]);
      }
    }
  }

  function Sign(plus: bool): string {
    if plus then "+" else ""
  }

  lemma SignedValue(plus: bool, digits: string)
    requires digits != "" && IsDigit(digits[0])
    ensures var s := Sign(plus) + digits;
      match DigitsValue(digits)
      case None => ParseUint128(s) == None
      case Some(n) => ParseUint128(s) == if n <= U128_MAX then Some(n) else None
  {
    assert plus ==> (Sign(plus) + digits)[1..] == digits;
    assert !plus ==> Sign(plus) + digits == digits;
  }

  lemma Trimmed(before: string, core: string, after: string)
    requires Blank(before) && Blank(after) && core != "" && !IsSpace(core[0]) && !IsSpace(core[|core| - 1])
    ensures TrimEnd(TrimStart(before + core + after)) == core
  {
    assert before + core + after == before + (core + after);
    TrimStartIs(before, core + after);
    TrimEndIs(core, after);
  }

  lemma SignedParses(before: string, plus: bool, digits: string, after: string, n: Uint128)
    requires Blank(before) && Blank(after)
    requires digits != "" && IsDigit(digits[0]) && IsDigit(digits[|digits| - 1]) && DigitsValue(digits) == Some(n)
    ensures ParseRate(before + (Sign(plus) + digits) + after) == Some(n)
  {
    var core := Sign(plus) + digits;
    assert core[|core| - 1] == digits[|digits| - 1] && core[0] == if plus then '+' else digits[0];
    SignedValue(plus, digits);
    Trimmed(before, core, after);
  }

  lemma SpellingParses(s: string, n: Uint128, before: string, plus: bool, zeros: nat, after: string)
    requires IsSpelling(s, n, before, plus, zeros, after)
    ensures ParseRate(s) == Some(n)
  {
    var digits := Zeros(zeros) + Decimal(n);
    ZerosValue(zeros, n);
    assert |Decimal(n)| > 0;
    assert digits[0] in digits && digits[|digits| - 1] in digits;
    SignedParses(before, plus, digits, after, n);
    Regrouped(Sign(plus), Zeros(zeros), Decimal(n));
  }

  lemma CoreIsSpelled(core: string, n: Uint128, plus: bool) returns (zeros: nat)
    requires ParseUint128(core) == Some(n) && (plus <==> core != "" && core[0] == '+')
    ensures core == Sign(plus) + Zeros(zeros) + Decimal(n)
  {
    var digits := if plus then core[1..] else core;
    assert core == Sign(plus) + digits;
    zeros := DigitsAreDecimal(digits);
    Regrouped(Sign(plus), Zeros(zeros), Decimal(n));
  }

  /** A rate attribute reads as `n` exactly when it spells `n`. */
  lemma ParseRateIff(s: string, n: Uint128)
    ensures ParseRate(s) == Some(n) <==> Spells(s, n)
  {
    if ParseRate(s) == Some(n) {
      var before := TrimStartLeaves(s);
      var after := TrimEndLeaves(TrimStart(s));
      var core := TrimEnd(TrimStart(s));
      var plus := core != "" && core[0] == '+';
      var zeros := CoreIsSpelled(core, n, plus);
      assert IsSpelling(s, n, before, plus, zeros, after);
    }
    if Spells(s, n) {
      var before, plus, zeros, after :| IsSpelling(s, n, before, plus, zeros, after);
      SpellingParses(s, n, before, plus, zeros, after);
    }
  }

  lemma DigitsParse(s: string, n: Uint128)
    requires s != "" && IsDigit(s[0]) && IsDigit(s[|s| - 1]) && DigitsValue(s) == Some(n)
    ensures ParseRate(s) == Some(n)
  {
  }

  /** Reading back a rate that the contract wrote gives the rate. */
  lemma DecimalRoundTrip(n: Uint128)
    ensures ParseRate(Decimal(n)) == Some(n)
  {
    DecimalDigits(n);
    DigitsParse(Decimal(n), n);
  }

  // ---------------------------------------------------------------- matching

  datatype EventMatch = Matched | EventsAbsent

  datatype MatchError = WrongContract | MissingAction | RateMismatch | RateUnreadable

  /** The value of the first address attribute. */
  function AddressOf(g: Group): Option<string> {
    if g == [] then None
    else if g[0].key == ADDRESS_KEY then Some(g[0].value)
    else AddressOf(g[1..])
  }

  function ValuesOf(g: Group, key: string): seq<string> {
    if g == [] then []
    else (if g[0].key == key then [g[0].value] else []) + ValuesOf(g[1..], key)
  }

  predicate IsOurs(contract: string, g: Group) {
    AddressOf(g).Some? && EqIgnoreCase(AddressOf(g).value, contract)
  }

  predicate HasUpdate(g: Group) {
    UPDATE_ACTION in ValuesOf(g, ACTION_KEY)
  }

  predicate RatesReadAs(rates: seq<string>, rate: Uint128) {
    rates != [] && forall v <- rates :: ParseRate(v) == Some(rate)
  }

  /** The group proves that this contract accepted an update to exactly this rate. */
  predicate ProvesUpdate(contract: string, rate: Uint128, g: Group) {
    IsOurs(contract, g) && HasUpdate(g) && RatesReadAs(ValuesOf(g, RATE_KEY), rate)
  }

  predicate IsOurUpdate(contract: string, g: Group) {
    IsOurs(contract, g) && HasUpdate(g)
  }

  /** The rates all read as one number, but not as the proposal. */
  ghost predicate ShowsOtherRate(contract: string, rate: Uint128, g: Group) {
    IsOurUpdate(contract, g) && exists n: Uint128 :: n != rate && RatesReadAs(ValuesOf(g, RATE_KEY), n)
  }

  /** The outcome of a list of groups, by what groups occur in it. */
  ghost function Outcome(contract: string, rate: Uint128, gs: seq<Group>): Result<EventMatch, MatchError> {
    if gs == [] then Ok(EventsAbsent)
    else if exists g <- gs :: ProvesUpdate(contract, rate, g) then Ok(Matched)
    else if !exists g <- gs :: IsOurs(contract, g) then Err(WrongContract)
    else if !exists g <- gs :: IsOurUpdate(contract, g) then Err(MissingAction)
    else if exists g <- gs :: ShowsOtherRate(contract, rate, g) then Err(RateMismatch)
    else Err(RateUnreadable)
  }

  /** The values of an attribute are the values of the attributes with that key. */
  lemma {:induction false} ValuesOfIn(g: Group, key: string, value: string)
    ensures value in ValuesOf(g, key) <==> Attribute(key, value) in g
  {
    if g != [] {
      ValuesOfIn(g[1..], key, value);
    }
  }

  /** All values parsed, or nothing when one of them does not. */
  method ParseAll(rates: seq<string>) returns (parsed: Option<seq<Uint128>>)
    ensures parsed.Some? <==> forall v <- rates :: ParseRate(v).Some?
    ensures parsed.Some? ==> |parsed.value| == |rates|
                             && forall i :: 0 <= i < |rates| ==> ParseRate(rates[i]) == Some(parsed.value[i])
  {
    var out: seq<Uint128> := [];
    for i := 0 to |rates|
      invariant |out| == i
      invariant forall k :: 0 <= k < i ==> ParseRate(rates[k]) == Some(out[k])
    {
      var n := ParseRate(rates[i]);
      if n.None? {
        return None;
      }
      out := out + [n.value];
    }
    parsed := Some(out);
  }

  datatype RateVerdict = Same | Other | Unreadable

  /** Reads the rates of one group: all of them must parse, and to one number. */
  method JudgeRates(rates: seq<string>, proposed: Uint128) returns (verdict: RateVerdict)
    ensures verdict == Same <==> RatesReadAs(rates, proposed)
    ensures verdict == Other <==> exists n: Uint128 :: n != proposed && RatesReadAs(rates, n)
  {
    if rates == [] {
      return Unreadable;
    }
    assert rates[0] in rates;
    if "" in rates {
      EmptyIsUnreadable();
      return Unreadable;
    }
    var parsed := ParseAll(rates);
    if parsed.None? {
      return Unreadable;
    }
    var first := parsed.value[0];
    if exists n <- parsed.value :: n != first {
      assert !exists n: Uint128 :: RatesReadAs(rates, n) by {
        var k :| 0 <= k < |rates| && parsed.value[k] != first;
        assert rates[k] in rates;
      }
      return Unreadable;
    }
    assert RatesReadAs(rates, first) by {
      forall v <- rates ensures ParseRate(v) == Some(first) {
        var k :| 0 <= k < |rates| && rates[k] == v;
        assert parsed.value[k] in parsed.value;
      }
    }
    verdict := if first == proposed then Same else Other;
  }

  /** What a scan has seen. */
  datatype Flags = Flags(matched: bool, ours: bool, update: bool, mismatch: bool)

  ghost function Seen(contract: string, rate: Uint128, gs: seq<Group>): Flags {
    if gs == [] then Flags(false, false, false, false)
    else
      var g := gs[|gs| - 1];
      var f := Seen(contract, rate, gs[..|gs| - 1]);
      Flags(f.matched || ProvesUpdate(contract, rate, g), f.ours || IsOurs(contract, g),
            f.update || IsOurUpdate(contract, g), f.mismatch || ShowsOtherRate(contract, rate, g))
  }

  lemma SeenNext(contract: string, rate: Uint128, gs: seq<Group>, i: nat)
    requires i < |gs|
    ensures var f := Seen(contract, rate, gs[..i]);
      Seen(contract, rate, gs[..i + 1])
      == Flags(f.matched || ProvesUpdate(contract, rate, gs[i]), f.ours || IsOurs(contract, gs[i]),
               f.update || IsOurUpdate(contract, gs[i]), f.mismatch || ShowsOtherRate(contract, rate, gs[i]))
  {
    assert gs[..i + 1][..i] == gs[..i];
  }

  lemma {:induction false} SeenMeansOccurs(contract: string, rate: Uint128, gs: seq<Group>)
    ensures var f := Seen(contract, rate, gs);
      && (f.matched <==> exists g <- gs :: ProvesUpdate(contract, rate, g))
      && (f.ours <==> exists g <- gs :: IsOurs(contract, g))
      && (f.update <==> exists g <- gs :: IsOurUpdate(contract, g))
      && (f.mismatch <==> exists g <- gs :: ShowsOtherRate(contract, rate, g))
  {
    if gs != [] {
      var init, g := gs[..|gs| - 1], gs[|gs| - 1];
      SeenMeansOccurs(contract, rate, init);
      assert gs == init + [g];
      assert g in gs && forall x :: x in gs <==> x in init || x == g;
    }
  }

  /** Scans the groups with four flags and returns at the first proof. */
  method OracleTxEventsMatchUpdate(contract: string, proposed: Uint128, events: seq<TxEvent>)
    returns (r: Result<EventMatch, MatchError>)
    ensures r == Outcome(contract, proposed, Groups(events))
  {
    var groups := WasmAttrGroups(events);
    if groups == [] {
      return Ok(EventsAbsent);
    }
    var sawOurContract, sawUpdateRate, rateMismatch, rateUnparseable := false, false, false, false;
    for i := 0 to |groups|
      invariant Seen(contract, proposed, groups[..i]) == Flags(false, sawOurContract, sawUpdateRate, rateMismatch)
      invariant sawUpdateRate ==> rateMismatch || rateUnparseable
    {
      var group := groups[i];
      SeenNext(contract, proposed, groups, i);
      var addr := AddressOf(group);
      if addr.None? {
        continue;
      }
      if !EqIgnoreCase(addr.value, contract) {
        continue;
      }
      sawOurContract := true;
      if UPDATE_ACTION !in ValuesOf(group, ACTION_KEY) {
        continue;
      }
      sawUpdateRate := true;
      var verdict := JudgeRates(ValuesOf(group, RATE_KEY), proposed);
      match verdict {
        case Unreadable => rateUnparseable := true;
        case Same =>
          assert group in groups && ProvesUpdate(contract, proposed, group);
          return Ok(Matched);
        case Other => rateMismatch := true;
      }
    }
    assert groups[..|groups|] == groups;
    SeenMeansOccurs(contract, proposed, groups);
    if !sawOurContract {
      return Err(WrongContract);
    }
    if !sawUpdateRate {
      return Err(MissingAction);
    }
    if rateMismatch {
      return Err(RateMismatch);
    }
    if rateUnparseable {
      return Err(RateUnreadable);
    }
    assert false;
  }

  lemma EmptyIsUnreadable()
    ensures ParseRate("") == None
  {
  }

  /** The group is headed by this contract's address, up to the case of ASCII letters. */
  predicate Addressed(contract: string, g: Group) {
    && g != [] && |g[0].value| == |contract|
    && forall i :: 0 <= i < |contract| ==> SameLetter(g[0].value[i], contract[i])
  }

  predicate Acts(g: Group) {
    Attribute("action", "update_rate") in g
  }

  /** At least one rate occurs, and each of them spells `rate`. */
  ghost predicate Rates(g: Group, rate: nat) {
    && (exists v :: Attribute("rate", v) in g)
    && (forall v :: Attribute("rate", v) in g ==> Spells(v, rate))
  }

  lemma GroupMeaning(contract: string, g: Group)
    requires WellHeaded(g)
    ensures IsOurs(contract, g) <==> Addressed(contract, g)
    ensures HasUpdate(g) <==> Acts(g)
  {
    EqIgnoreCaseIff(g[0].value, contract);
    ValuesOfIn(g, ACTION_KEY, UPDATE_ACTION);
  }

  lemma RatesMeaning(g: Group, rate: Uint128)
    ensures RatesReadAs(ValuesOf(g, RATE_KEY), rate) <==> Rates(g, rate)
  {
    var rates := ValuesOf(g, RATE_KEY);
    forall v
      ensures v in rates <==> Attribute(RATE_KEY, v) in g
      ensures ParseRate(v) == Some(rate) <==> Spells(v, rate)
    {
      ValuesOfIn(g, RATE_KEY, v);
      ParseRateIff(v, rate);
    }
    if rates != [] {
      assert rates[0] in rates;
    }
  }

  lemma GroupsMeaning(contract: string, events: seq<TxEvent>)
    ensures forall g <- Groups(events) :: IsOurs(contract, g) <==> Addressed(contract, g)
    ensures forall g <- Groups(events) :: HasUpdate(g) <==> Acts(g)
    ensures forall g: Group, n: Uint128 :: RatesReadAs(ValuesOf(g, RATE_KEY), n) <==> Rates(g, n)
  {
    GroupsFlatten(events);
    forall g | g in Groups(events)
      ensures IsOurs(contract, g) <==> Addressed(contract, g)
      ensures HasUpdate(g) <==> Acts(g)
    {
      assert WellHeaded(g);
      GroupMeaning(contract, g);
    }
    forall g: Group, n: Uint128
      ensures RatesReadAs(ValuesOf(g, RATE_KEY), n) <==> Rates(g, n)
    {
      RatesMeaning(g, n);
    }
  }

  /** `Matched` means exactly that some group of the wasm events is headed by this contract,
      acts, and has nothing but the proposal as its rate; for addresses without capitals, it
      is one of exactly this contract. */
  lemma MatchedIff(contract: string, rate: Uint128, events: seq<TxEvent>)
    ensures Outcome(contract, rate, Groups(events)) == Ok(Matched) <==>
            exists g <- Groups(events) :: Addressed(contract, g) && Acts(g) && Rates(g, rate)
    ensures Outcome(contract, rate, Groups(events)) == Ok(Matched) && !HasCapitals(contract)
            && (forall g: Group <- Groups(events) :: g != [] ==> !HasCapitals(g[0].value)) ==>
              exists g: Group <- Groups(events) :: g != [] && g[0].value == contract && Acts(g) && Rates(g, rate)
  {
    GroupsMeaning(contract, events);
    if g: Group :| g in Groups(events) && Addressed(contract, g) && Acts(g) && Rates(g, rate) {
      EqIgnoreCaseIff(g[0].value, contract);
    }
  }

  /** Every other outcome in terms of addresses, actions and spelled numbers: each error names
      the step that failed for all groups. */
  lemma MismatchIff(contract: string, rate: Uint128, events: seq<TxEvent>)
    ensures var gs := Groups(events);
      var r := Outcome(contract, rate, gs);
      && (r == Ok(EventsAbsent) <==> gs == [])
      && (r == Err(WrongContract) <==> gs != [] && forall g <- gs :: !Addressed(contract, g))
      && (r == Err(MissingAction) <==>
            && (exists g <- gs :: Addressed(contract, g))
            && (forall g <- gs :: Addressed(contract, g) ==> !Acts(g)))
  {
    GroupsMeaning(contract, events);
  }

  /** A mismatch is an update of this contract to one other number, where none matches. */
  lemma RateMismatchIff(contract: string, rate: Uint128, events: seq<TxEvent>)
    ensures var gs := Groups(events);
      var r := Outcome(contract, rate, gs);
      r == Err(RateMismatch) <==>
      && r != Ok(Matched)
      && exists g <- gs :: Addressed(contract, g) && Acts(g) && exists n: Uint128 :: n != rate && Rates(g, n)
  {
    GroupsMeaning(contract, events);
  }

  /** The event of one update, as a chain records it. */
  function UpdateEvent(ty: string, address: string, rate: Uint128): TxEvent {
    TxEvent(ty, [Attribute("_contract_address", address), Attribute("action", "update_rate"),
                 Attribute("rate", Decimal(rate))])
  }

  lemma UpdateEventKeys(ty: string, address: string, rate: Uint128)
    ensures var g := UpdateEvent(ty, address, rate).attributes;
      && g[0].key == ADDRESS_KEY && g[1].key == ACTION_KEY && g[2].key == RATE_KEY
      && ADDRESS_KEY != ACTION_KEY && ADDRESS_KEY != RATE_KEY && ACTION_KEY != RATE_KEY
  {
    assert |ADDRESS_KEY| == 17 && |ACTION_KEY| == 6 && |RATE_KEY| == 4;
  }

  lemma EventGroupsAppend(init: seq<Attribute>, a: Attribute)
    ensures var gs := EventGroups(init);
      EventGroups(init + [a]) == if a.key == ADDRESS_KEY then gs + [[a]]
                                 else if gs == [] then []
                                 else gs[..|gs| - 1] + [gs[|gs| - 1] + [a]]
  {
    assert (init + [a])[..|init|] == init;
  }

  lemma SingleEvent(e: TxEvent)
    ensures Groups([e]) == if IsWasm(e) then EventGroups(e.attributes) else []
  {
    assert [e][..0] == [] && Groups([]) == [];
  }

  lemma UpdateEventGroup(ty: string, address: string, rate: Uint128)
    ensures Groups([UpdateEvent(ty, address, rate)])
         == if EqIgnoreCase(ty, "wasm") then [UpdateEvent(ty, address, rate).attributes] else []
  {
    var e := UpdateEvent(ty, address, rate);
    SingleEvent(e);
    UpdateEventKeys(ty, address, rate);
    ThreeAttributes(e.attributes);
  }

  lemma ThreeAttributes(g: seq<Attribute>)
    requires |g| == 3 && g[0].key == ADDRESS_KEY && g[1].key != ADDRESS_KEY && g[2].key != ADDRESS_KEY
    ensures EventGroups(g) == [g]
  {
    EventGroupsAppend([], g[0]);
    EventGroupsAppend([g[0]], g[1]);
    EventGroupsAppend([g[0], g[1]], g[2]);
    assert [] + [g[0]] == [g[0]] && [g[0]] + [g[1]] == [g[0], g[1]] && [g[0], g[1]] + [g[2]] == g;
  }

  lemma ShortGroup(g: Group, key: string)
    requires 2 <= |g| <= 3
    ensures ValuesOf(g, key) == (if g[0].key == key then [g[0].value] else [])
                                + (if g[1].key == key then [g[1].value] else [])
                                + (if |g| == 3 && g[2].key == key then [g[2].value] else [])
  {
    assert g[1..][1..] == g[2..];
    assert |g| == 3 ==> g[2..] == [g[2]];
    assert ValuesOf(g[2..], key) == if |g| == 3 && g[2].key == key then [g[2].value] else [];
  }

  lemma UpdateEventGroupMeaning(contract: string, ty: string, address: string, rate: Uint128)
    ensures var g := UpdateEvent(ty, address, rate).attributes;
      && (IsOurs(contract, g) <==> EqIgnoreCase(address, contract))
      && HasUpdate(g)
      && (forall n: Uint128 :: RatesReadAs(ValuesOf(g, RATE_KEY), n) <==> n == rate)
  {
    var g := UpdateEvent(ty, address, rate).attributes;
    UpdateEventKeys(ty, address, rate);
    ShortGroup(g, RATE_KEY);
    ShortGroup(g, ACTION_KEY);
    DecimalRoundTrip(rate);
    assert Decimal(rate) in ValuesOf(g, RATE_KEY);
  }

  /** What the check says of a single update event: it matches for this contract and the
      proposed rate, and otherwise names what is wrong; an event of another type is none. */
  lemma UpdateEventOutcome(contract: string, proposed: Uint128, ty: string, address: string, rate: Uint128)
    ensures Outcome(contract, proposed, Groups([UpdateEvent(ty, address, rate)]))
         == if !EqIgnoreCase(ty, "wasm") then Ok(EventsAbsent)
            else if !EqIgnoreCase(address, contract) then Err(WrongContract)
            else if rate == proposed then Ok(Matched)
            else Err(RateMismatch)
  {
    UpdateEventGroup(ty, address, rate);
    UpdateEventGroupMeaning(contract, ty, address, rate);
    var g := UpdateEvent(ty, address, rate).attributes;
    assert forall x :: x in [g] <==> x == g;
    assert RatesReadAs(ValuesOf(g, RATE_KEY), rate);
    assert ProvesUpdate(contract, proposed, g) <==> EqIgnoreCase(address, contract) && rate == proposed;
    assert rate != proposed && EqIgnoreCase(address, contract) ==> ShowsOtherRate(contract, proposed, g);
  }

  /** Reordering or repeating groups changes nothing. */
  lemma OutcomeIgnoresOrder(contract: string, rate: Uint128, xs: seq<Group>, ys: seq<Group>)
    requires forall g :: g in xs <==> g in ys
    ensures Outcome(contract, rate, xs) == Outcome(contract, rate, ys)
  {
    assert xs == [] <==> ys == [] by {
      if xs != [] {
        assert xs[0] in ys;
      }
      if ys != [] {
        assert ys[0] in xs;
      }
    }
  }

  function OnlyOurs(contract: string, gs: seq<Group>): seq<Group> {
    if gs == [] then []
    else OnlyOurs(contract, gs[..|gs| - 1]) + if IsOurs(contract, gs[|gs| - 1]) then [gs[|gs| - 1]] else []
  }

  lemma {:induction false} OnlyOursIn(contract: string, gs: seq<Group>, g: Group)
    ensures g in OnlyOurs(contract, gs) <==> g in gs && IsOurs(contract, g)
  {
    if gs != [] {
      OnlyOursIn(contract, gs[..|gs| - 1], g);
      assert gs == gs[..|gs| - 1] + [gs[|gs| - 1]];
    }
  }

  /** When this contract appears, other contracts' groups in the same transaction, added or
      removed, never change the outcome. */
  lemma OutcomeIgnoresOthers(contract: string, rate: Uint128, xs: seq<Group>, ys: seq<Group>)
    requires OnlyOurs(contract, xs) == OnlyOurs(contract, ys) != []
    ensures Outcome(contract, rate, xs) == Outcome(contract, rate, ys)
  {
    forall g
      ensures IsOurs(contract, g) ==> (g in xs <==> g in ys)
    {
      OnlyOursIn(contract, xs, g);
      OnlyOursIn(contract, ys, g);
    }
    var ours := OnlyOurs(contract, xs)[0];
    OnlyOursIn(contract, xs, ours);
  }

  // ---------------------------------------------------------------- State fallback

  datatype StateError = StateRateMismatch | NotAdvanced

  function StateMatchesIntendedUpdate(priorLastUpdate: nat, state: Oracle.StateResponse, proposed: Uint128)
    : Result<(), StateError>
  {
    if state.rate != proposed then Err(StateRateMismatch)
    else if state.lastUpdateSec <= priorLastUpdate then Err(NotAdvanced)
    else Ok(())
  }
}
