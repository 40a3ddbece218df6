/**
 * The server rules the inventory agents talk to: the check-in token gate
 * and the `/Date(ms)/` dates it parses, token generation parameters,
 * token validation, and the update check's dotted-version comparison.
 * Times are whole seconds unless a name says otherwise.
 */
module InventoryViews {
  import opened Wrappers
  import opened Text
  import opened InventorySignals

  // ---------------------------------------------------------------- Python's int()

  /** `int(s)` on a string: surrounding blanks, an optional sign and decimal digits. */
  function ParseInt(s: string): (r: Option<int>)
  {
    var t := Strip(s);
    if t == [] then None
    else if t[0] == '-' || t[0] == '+' then
      var d := t[1..];
      var v: int := if d != [] && AllDigits(d) then DigitsValue(d) else 0;
      if d != [] && AllDigits(d) then Some(if t[0] == '-' then -v else v) else None
    else if AllDigits(t) then Some(DigitsValue(t))
    else None
  }

  /** `int(str(n)) == n`. */
  lemma ParseIntOfNat(n: nat)
    ensures ParseInt(NatToString(n)) == Some(n)
  {
    var s := NatToString(n);
    assert !IsSpace(s[0]) && !IsSpace(s[|s| - 1]);
    assert TrimLeft(s) == s;
    assert TrimRight(s) == s;
  }

  // ---------------------------------------------------------------- /Date(ms)/

  const WmiOpen := "/Date("
  const WmiClose := ")/"

  /** The end of the run of digits starting at `j`. */
  function DigitRun(s: string, j: nat): (k: nat)
    requires j <= |s|
    ensures j <= k <= |s| && AllDigits(s[j..k]) && (k < |s| ==> !IsDigit(s[k]))
    decreases |s| - j
  {
    if j < |s| && IsDigit(s[j]) then
      var k := DigitRun(s, j + 1);
      assert s[j..k] == [s[j]] + s[j + 1..k];
      k
    else j
  }

  /** A run of digits that ends before a non-digit is found by `DigitRun`. */
  lemma {:induction false} DigitRunOf(s: string, j: nat, k: nat)
    requires j <= k <= |s| && AllDigits(s[j..k]) && (k < |s| ==> !IsDigit(s[k]))
    ensures DigitRun(s, j) == k
    decreases k - j
  {
    if j < k {
      assert IsDigit(s[j..k][0]);
      assert s[j + 1..k] == s[j..k][1..];
      DigitRunOf(s, j + 1, k);
    }
  }

  /** Where `/Date(<digits>)/` starts at `i`, the end of its digits. */
  function MatchAt(s: string, i: nat): (r: Option<nat>)
    ensures r.Some? ==> i + 6 < r.value && r.value + 2 <= |s| && OccursAt(s, WmiOpen, i)
                        && AllDigits(s[i + 6..r.value]) && s[r.value..r.value + 2] == WmiClose
  {
    if i + 6 <= |s| && s[i..i + 6] == WmiOpen then
      var k := DigitRun(s, i + 6);
      if k > i + 6 && k + 2 <= |s| && s[k..k + 2] == WmiClose then Some(k) else None
    else None
  }

  /** `re.search` from position `i`: the leftmost match, as its start and the end of its digits. */
  function SearchFrom(s: string, i: nat): (r: Option<(nat, nat)>)
    ensures r.Some? ==> i <= r.value.0 && MatchAt(s, r.value.0) == Some(r.value.1)
                        && forall j :: i <= j < r.value.0 ==> MatchAt(s, j).None?
    ensures r.None? ==> forall j :: i <= j ==> MatchAt(s, j).None?
    decreases |s| + 1 - i
  {
    if i > |s| then None
    else match MatchAt(s, i)
      case Some(k) => Some((i, k))
      case None => SearchFrom(s, i + 1)
  }

  /** The milliseconds of the first `/Date(<digits>)/` in the value, `None` counting as ''. */
  function WmiMillis(wmi: Option<string>): Option<nat> {
    var s := wmi.GetOr("");
    match SearchFrom(s, 0)
    case None => None
    case Some((i, k)) => Some(DigitsValue(s[i + 6..k]))
  }

  /** A value that never opens `/Date(` carries no date, and neither does None. */
  lemma WmiMillisAbsent(s: string)
    requires !Contains(s, WmiOpen)
    ensures WmiMillis(Some(s)).None? && WmiMillis(None).None?
  {
    assert SearchFrom([], 0).None?;
  }

  /** The date a PowerShell JSON encoder writes is read back exactly. */
  lemma WmiMillisRoundTrip(ms: nat, rest: string)
    ensures WmiMillis(Some(WmiOpen + NatToString(ms) + WmiClose + rest)) == Some(ms)
  {
    var d := NatToString(ms);
    var s := WmiOpen + d + WmiClose + rest;
    WmiMatchAtStart(d, rest);
    WmiMillisOfMatch(s, 6 + |d|);
  }

  /** A match at the very start is the one read. */
  lemma WmiMillisOfMatch(s: string, k: nat)
    requires MatchAt(s, 0) == Some(k)
    ensures WmiMillis(Some(s)) == Some(DigitsValue(s[6..k]))
  {
    assert SearchFrom(s, 0) == Some((0, k));
  }

  /** A text that opens with `/Date(`, digits and `)/` matches at its start. */
  lemma WmiMatchAtStart(d: string, rest: string)
    requires d != [] && AllDigits(d)
    ensures MatchAt(WmiOpen + d + WmiClose + rest, 0) == Some(6 + |d|)
    ensures (WmiOpen + d + WmiClose + rest)[6..6 + |d|] == d
  {
    var s := WmiOpen + d + WmiClose + rest;
    var k := 6 + |d|;
    assert s[0..6] == WmiOpen;
    assert s[6..k] == d;
    assert s[k] == ')';
    DigitRunOf(s, 6, k);
    assert s[k..k + 2] == WmiClose;
  }

  /** The largest instant `datetime` can hold, in milliseconds since 1970 (the end of year 9999). */
  const MaxMillis: nat := 253402300799999

  /** `parse_wmi_date` as written: a match reaches `datetime.datetime`, which does not exist. */
  function ParseWmiDateAsWritten(wmi: Option<string>): Result<Option<nat>> {
    if WmiMillis(wmi).None? then Ok(None)
    else Err("type object 'datetime.datetime' has no attribute 'datetime'")
  }

  /** As written, every well-formed date raises. */
  lemma WmiDateAlwaysRaises(ms: nat)
    ensures ParseWmiDateAsWritten(Some(WmiOpen + NatToString(ms) + WmiClose)).Err?
  {
    WmiMillisRoundTrip(ms, []);
    assert WmiOpen + NatToString(ms) + WmiClose + [] == WmiOpen + NatToString(ms) + WmiClose;
  }

  /**
   * The evidently intended `parse_wmi_date`: the instant as milliseconds
   * since 1970, or the error `utcfromtimestamp` raises past year 9999.
   */
  function ParseWmiDate(wmi: Option<string>): Result<Option<nat>> {
    match WmiMillis(wmi)
    case None => Ok(None)
    case Some(ms) => if ms > MaxMillis then Err("year is out of range") else Ok(Some(ms))
  }

  /** Corrected, a date in range is read back exactly and a value without one gives None. */
  lemma ParseWmiDateSpec(ms: nat, s: string)
    ensures ms <= MaxMillis ==> ParseWmiDate(Some(WmiOpen + NatToString(ms) + WmiClose)) == Ok(Some(ms))
    ensures !Contains(s, WmiOpen) ==> ParseWmiDate(Some(s)) == Ok(None) && ParseWmiDate(None) == Ok(None)
  {
    WmiMillisRoundTrip(ms, []);
    assert WmiOpen + NatToString(ms) + WmiClose + [] == WmiOpen + NatToString(ms) + WmiClose;
    if !Contains(s, WmiOpen) {
      WmiMillisAbsent(s);
    }
  }

  // ---------------------------------------------------------------- tokens

  /** An `AgentToken` row. */
  datatype AgentToken = AgentToken(tokenHash: string, isActive: bool, expiresAt: int, usedAt: Option<int>, machineName: string)

  /** A reply: its HTTP status and message. */
  datatype Reply = Reply(code: nat, message: string)

  /** The positions, among the first `n` rows, of the active tokens with hash `h`, in order. */
  function Matches(tokens: seq<AgentToken>, h: string, n: nat): (ms: seq<nat>)
    requires n <= |tokens|
    ensures forall x :: x in ms ==> x < n && tokens[x].tokenHash == h && tokens[x].isActive
    ensures forall x :: 0 <= x < n && tokens[x].tokenHash == h && tokens[x].isActive ==> x in ms
    ensures forall a, b :: 0 <= a < b < |ms| ==> ms[a] < ms[b]
  {
    if n == 0 then []
    else
      var m := Matches(tokens, h, n - 1);
      assert forall a :: 0 <= a < |m| ==> m[a] in m;
      if tokens[n - 1].tokenHash == h && tokens[n - 1].isActive then m + [n - 1] else m
  }

  predicate ActiveHash(tokens: seq<AgentToken>, h: string) {
    exists i :: 0 <= i < |tokens| && tokens[i].tokenHash == h && tokens[i].isActive
  }

  /** `is_expired`, read as the expiry instant having passed. */
  predicate Expired(t: AgentToken, now: int) {
    now > t.expiresAt
  }

  /** `mark_as_used`, read as recording the time and the machine. */
  function MarkUsed(t: AgentToken, machine: string, now: int): AgentToken {
    t.(usedAt := Some(now), machineName := machine)
  }

  /** What `objects.get(token_hash=..., is_active=True)` finds; `Many` carries the number of rows. */
  datatype Found = NoRow | Many(count: nat) | One(k: nat)

  /** Django fetches at most 21 rows for `get()`, so the count it reports stops there. */
  const MaxGetResults: nat := 21

  /** The text of Django's `MultipleObjectsReturned` for `AgentToken`. */
  function MultipleText(count: nat): string {
    "get() returned more than one AgentToken -- it returned "
      + (if count < MaxGetResults then NatToString(count) else "more than " + NatToString(MaxGetResults - 1)) + "!"
  }

  function Lookup(tokens: seq<AgentToken>, h: string): (f: Found)
    ensures f.One? ==> f.k < |tokens| && tokens[f.k].tokenHash == h && tokens[f.k].isActive
  {
    var ms := Matches(tokens, h, |tokens|);
    if |ms| == 0 then NoRow
    else if |ms| > 1 then Many(|ms|)
    else (assert ms[0] in ms; One(ms[0]))
  }

  /** The elements of a sequence of row indices. */
  function Elems(ms: seq<nat>): set<nat> {
    set x | x in ms
  }

  /** A strictly increasing sequence has as many elements as its set. */
  lemma {:induction false} IncreasingCard(ms: seq<nat>)
    requires forall a, b :: 0 <= a < b < |ms| ==> ms[a] < ms[b]
    ensures |Elems(ms)| == |ms|
  {
    if ms != [] {
      var last := ms[|ms| - 1];
      var init := ms[..|ms| - 1];
      IncreasingCard(init);
      assert last !in Elems(init) by {
        forall k | 0 <= k < |init| ensures init[k] != last {
          assert init[k] == ms[k];
        }
      }
      assert Elems(ms) == Elems(init) + {last} by {
        assert ms == init + [last];
      }
    }
  }

  /** No row, several rows, or the one active row with that hash. */
  lemma LookupSpec(tokens: seq<AgentToken>, h: string)
    ensures Lookup(tokens, h).NoRow? <==> !ActiveHash(tokens, h)
    ensures Lookup(tokens, h).One? ==>
              forall j :: 0 <= j < |tokens| && j != Lookup(tokens, h).k ==> !(tokens[j].tokenHash == h && tokens[j].isActive)
    ensures Lookup(tokens, h).Many? ==>
              exists i, j :: 0 <= i < j < |tokens| && tokens[i].tokenHash == h && tokens[i].isActive
                             && tokens[j].tokenHash == h && tokens[j].isActive
    ensures Lookup(tokens, h).Many? ==>
              Lookup(tokens, h).count == |set j | 0 <= j < |tokens| && tokens[j].tokenHash == h && tokens[j].isActive|
  {
    var ms := Matches(tokens, h, |tokens|);
    IncreasingCard(ms);
    assert (set j | 0 <= j < |tokens| && tokens[j].tokenHash == h && tokens[j].isActive) == Elems(ms);
    if |ms| > 1 {
      assert ms[0] in ms && ms[1] in ms;
    }
    if |ms| == 1 {
      assert forall j :: 0 <= j < |tokens| && tokens[j].tokenHash == h && tokens[j].isActive ==> j in ms;
    }
  }

  /** `AgentValidateTokenAPIView.post`: the reply and the token table after it. */
  function Validate(tokens: seq<AgentToken>, token: Option<string>, machine: string, now: int): (Reply, seq<AgentToken>)
  {
    var t := Strip(token.GetOr(""));
    if t == [] then (Reply(400, "Token não fornecido"), tokens)
    else match Lookup(tokens, t)
      case NoRow => (Reply(401, "Token inválido"), tokens)
      case Many(n) => (Reply(500, "Erro: " + MultipleText(n)), tokens)
      case One(k) =>
        if Expired(tokens[k], now) then (Reply(401, "Token expirado"), tokens)
        else (Reply(200, "Token válido"),
              if tokens[k].usedAt.None? then tokens[k := MarkUsed(tokens[k], machine, now)] else tokens)
  }

  /**
   * A blank token is a bad request; a token is valid exactly when it is
   * the one active row with that hash and unexpired; anything else is
   * refused and leaves the table alone.
   */
  lemma ValidateSpec(tokens: seq<AgentToken>, token: Option<string>, machine: string, now: int)
    ensures var (reply, after) := Validate(tokens, token, machine, now);
            var t := Strip(token.GetOr(""));
            (reply.code == 400 <==> AllSpace(token.GetOr("")))
            && (reply.code == 401 && !AllSpace(token.GetOr("")) ==>
                  !ActiveHash(tokens, t)
                  || exists k :: 0 <= k < |tokens| && tokens[k].tokenHash == t && tokens[k].isActive && Expired(tokens[k], now))
            && (reply.code == 200 <==>
                  !AllSpace(token.GetOr(""))
                  && exists k :: 0 <= k < |tokens| && tokens[k].tokenHash == t && tokens[k].isActive && !Expired(tokens[k], now)
                                 && forall j :: 0 <= j < |tokens| && j != k ==> !(tokens[j].tokenHash == t && tokens[j].isActive))
            && (reply.code != 200 ==> after == tokens)
            && |after| == |tokens|
  {
    StripSpec(token.GetOr(""));
    var t := Strip(token.GetOr(""));
    LookupSpec(tokens, t);
  }

  /**
   * `used_at` records the first successful validation only: any later
   * validation, at any time and from any machine, leaves the table as it
   * is, and succeeds exactly while the token has not expired.
   */
  lemma UsedAtFirstOnly(tokens: seq<AgentToken>, token: Option<string>, m1: string, t1: int, m2: string, t2: int)
    requires Validate(tokens, token, m1, t1).0.code == 200
    ensures var after := Validate(tokens, token, m1, t1).1;
            var t := Strip(token.GetOr(""));
            Lookup(tokens, t).One?
            && after[Lookup(tokens, t).k].usedAt
               == (if tokens[Lookup(tokens, t).k].usedAt.None? then Some(t1) else tokens[Lookup(tokens, t).k].usedAt)
            && Validate(after, token, m2, t2).1 == after
            && Validate(after, token, m2, t2).0
               == (if Expired(tokens[Lookup(tokens, t).k], t2) then Reply(401, "Token expirado") else Reply(200, "Token válido"))
  {
    var after := Validate(tokens, token, m1, t1).1;
    var t := Strip(token.GetOr(""));
    assert t != [] && Lookup(tokens, t).One?;
    var k := Lookup(tokens, t).k;
    assert !Expired(tokens[k], t1);
    assert after == (if tokens[k].usedAt.None? then tokens[k := MarkUsed(tokens[k], m1, t1)] else tokens);
    assert forall j :: 0 <= j < |tokens| ==> after[j].tokenHash == tokens[j].tokenHash && after[j].isActive == tokens[j].isActive;
    MatchesSame(tokens, after, t, |tokens|);
    assert Lookup(after, t) == One(k);
    assert after[k].usedAt.Some? && after[k].expiresAt == tokens[k].expiresAt;
  }

  /** Tables that agree on which rows are active with hash `h` give the same matches. */
  lemma {:induction false} MatchesSame(xs: seq<AgentToken>, ys: seq<AgentToken>, h: string, n: nat)
    requires n <= |xs| == |ys|
    requires forall j :: 0 <= j < |xs| ==> (xs[j].tokenHash == h && xs[j].isActive <==> ys[j].tokenHash == h && ys[j].isActive)
    ensures Matches(xs, h, n) == Matches(ys, h, n)
  {
    if n > 0 {
      MatchesSame(xs, ys, h, n - 1);
    }
  }

  /** What the token form asks for: how many tokens, and when they expire. */
  datatype TokenBatch = TokenBatch(quantity: nat, expiresAt: int)

  const InfiniteDays: nat := 36500
  const Infinite: string := "infinite"
  const QuantityRange: string := "Quantidade deve ser entre 1 e 50"
  const DaysRange: string := "Validade deve ser entre 1 e 365 dias ou infinita"

  /**
   * `AgentTokenCreateView.post`'s parameter checks; absent fields default
   * to one token and seven days.
   */
  function TokenParams(quantity: Option<string>, days: Option<string>, now: int): Result<TokenBatch> {
    var q := if quantity.None? then Some(1) else ParseInt(quantity.value);
    if q.None? then Err(IntLiteralError(quantity.value))
    else if q.value < 1 || q.value > 50 then Err(QuantityRange)
    else
      var d := days.GetOr("7");
      if d == Infinite then Ok(TokenBatch(q.value, now + InfiniteDays * 86400))
      else
        var n := ParseInt(d);
        if n.None? then Err(IntLiteralError(d))
        else if n.value < 1 || n.value > 365 then Err(DaysRange)
        else Ok(TokenBatch(q.value, now + n.value * 86400))
  }

  /**
   * A batch is accepted exactly for 1 to 50 tokens valid for 1 to 365
   * days or for 'infinite' (36500 days).
   */
  lemma TokenParamsSpec(quantity: Option<string>, days: Option<string>, now: int)
    ensures var r := TokenParams(quantity, days, now);
            var q := if quantity.None? then Some(1) else ParseInt(quantity.value);
            var d := days.GetOr("7");
            (r.Ok? <==> q.Some? && 1 <= q.value <= 50
                        && (d == Infinite || (ParseInt(d).Some? && 1 <= ParseInt(d).value <= 365)))
            && (r.Ok? ==> r.value.quantity == q.value
                          && r.value.expiresAt - now == (if d == Infinite then InfiniteDays else ParseInt(d).value) * 86400)
  {
  }

  /** A count or a duration `int()` refuses raises its `ValueError`, which names the value typed. */
  lemma TokenParamsNotAnInt(quantity: Option<string>, days: Option<string>, now: int)
    ensures quantity.Some? && ParseInt(quantity.value).None? ==>
              TokenParams(quantity, days, now) == Err(IntLiteralError(quantity.value))
    ensures var q := if quantity.None? then Some(1) else ParseInt(quantity.value);
            var d := days.GetOr("7");
            q.Some? && 1 <= q.value <= 50 && d != Infinite && ParseInt(d).None? ==>
              TokenParams(quantity, days, now) == Err(IntLiteralError(d))
  {
  }

  /** `quantity=abc` is refused with "invalid literal for int() with base 10: 'abc'". */
  lemma TokenParamsAbc(days: Option<string>, now: int)
    ensures TokenParams(Some("abc"), days, now) == Err("invalid literal for int() with base 10: 'abc'")
  {
    PlainRepr("abc");
    assert !IsDigit("abc"[0]);
  }

  /** Every admissible count and duration, typed as digits, is accepted as such. */
  lemma TokenParamsAcceptsRange(q: nat, d: nat, now: int)
    requires 1 <= q <= 50 && 1 <= d <= 365
    ensures TokenParams(Some(NatToString(q)), Some(NatToString(d)), now) == Ok(TokenBatch(q, now + d * 86400))
  {
    ParseIntOfNat(q);
    ParseIntOfNat(d);
    DigitsNotInfinite(NatToString(d));
    TokenParamsParsed(NatToString(q), NatToString(d), q, d, now);
  }

  /** Fields that parse to admissible values, and a duration other than 'infinite', are accepted. */
  lemma TokenParamsParsed(qs: string, ds: string, q: nat, d: nat, now: int)
    requires ParseInt(qs) == Some(q as int) && ParseInt(ds) == Some(d as int) && ds != Infinite
    requires 1 <= q <= 50 && 1 <= d <= 365
    ensures TokenParams(Some(qs), Some(ds), now) == Ok(TokenBatch(q, now + d * 86400))
  {
  }

  /** Text made of digits is never the word 'infinite'. */
  lemma DigitsNotInfinite(s: string)
    requires s != [] && AllDigits(s)
    ensures s != Infinite
  {
    assert IsDigit(s[0]) && !IsDigit(Infinite[0]);
  }

  // ---------------------------------------------------------------- check-in

  /** The fields of a check-in the model follows. */
  datatype CheckinRequest = CheckinRequest(hostname: Option<string>, ip: string, token: Option<string>,
                                           installDate: Option<string>, lastBoot: Option<string>)

  /** A `Machine` row, with its install and boot instants in milliseconds. */
  datatype MachineRow = MachineRow(id: nat, ip: string, isOnline: bool, lastSeen: Option<int>,
                                   installDate: Option<nat>, lastBoot: Option<nat>)

  /**
   * The check-in once the two dates are parsed: the token gate, then
   * `update_or_create` by hostname, whose save runs the status handler.
   */
  function CheckinWith(req: CheckinRequest, tokens: seq<AgentToken>, machines: map<string, MachineRow>, newId: nat,
                       now: int, install: Result<Option<nat>>, boot: Result<Option<nat>>): (Reply, map<string, MachineRow>)
  {
    if req.hostname.None? then (Reply(400, "'hostname'"), machines)
    else if req.token.None? || !ActiveHash(tokens, req.token.value) then (Reply(401, "Token inválido"), machines)
    else if install.Err? then (Reply(400, install.error), machines)
    else if boot.Err? then (Reply(400, boot.error), machines)
    else
      var h := req.hostname.value;
      var pk := if h in machines then Some(machines[h].id) else None;
      var stored := if h in machines then Some(machines[h].lastSeen) else None;
      var online := StatusAfterSave(pk, stored, Some(now), now, DefaultOfflineTimeout);
      var id := if h in machines then machines[h].id else newId;
      (Reply(200, "ok"), machines[h := MachineRow(id, req.ip, online, Some(now), install.value, boot.value)])
  }

  /** `MachineCheckinView.post` as written. */
  function CheckinAsWritten(req: CheckinRequest, tokens: seq<AgentToken>, machines: map<string, MachineRow>, newId: nat,
                            now: int): (Reply, map<string, MachineRow>)
  {
    CheckinWith(req, tokens, machines, newId, now, ParseWmiDateAsWritten(req.installDate), ParseWmiDateAsWritten(req.lastBoot))
  }

  /** As written, an agent with a valid token that reports its install date is turned away. */
  lemma CheckinRefusedWithDate(req: CheckinRequest, tokens: seq<AgentToken>, machines: map<string, MachineRow>,
                               newId: nat, now: int, ms: nat)
    requires req.hostname.Some? && req.token.Some? && ActiveHash(tokens, req.token.value)
    requires req.installDate == Some(WmiOpen + NatToString(ms) + WmiClose)
    ensures CheckinAsWritten(req, tokens, machines, newId, now).0.code == 400
    ensures CheckinAsWritten(req, tokens, machines, newId, now).1 == machines
  {
    WmiDateAlwaysRaises(ms);
    var e := ParseWmiDateAsWritten(req.installDate);
    assert e.Err?;
    assert CheckinAsWritten(req, tokens, machines, newId, now)
        == CheckinWith(req, tokens, machines, newId, now, e, ParseWmiDateAsWritten(req.lastBoot));
  }

  /** The evidently intended check-in, storing the parsed dates. */
  function Checkin(req: CheckinRequest, tokens: seq<AgentToken>, machines: map<string, MachineRow>, newId: nat,
                   now: int): (Reply, map<string, MachineRow>)
  {
    CheckinWith(req, tokens, machines, newId, now, ParseWmiDate(req.installDate), ParseWmiDate(req.lastBoot))
  }

  /**
   * The gate: a check-in is stored only with a hostname and the hash of
   * an active token, expired or not; the machine is then online, seen
   * now, with the dates read back, and no other machine changes.
   */
  lemma CheckinSpec(req: CheckinRequest, tokens: seq<AgentToken>, machines: map<string, MachineRow>, newId: nat,
                    now: int, ims: nat, bms: nat)
    requires ims <= MaxMillis && bms <= MaxMillis
    requires req.installDate == Some(WmiOpen + NatToString(ims) + WmiClose)
    requires req.lastBoot == Some(WmiOpen + NatToString(bms) + WmiClose)
    ensures var (reply, after) := Checkin(req, tokens, machines, newId, now);
            (reply.code == 200 <==> req.hostname.Some? && req.token.Some? && ActiveHash(tokens, req.token.value))
            && (reply.code != 200 ==> after == machines)
            && (reply.code == 200 ==>
                  req.hostname.Some? && req.hostname.value in after &&
                  var m := after[req.hostname.value];
                  m.isOnline && m.lastSeen == Some(now) && m.installDate == Some(ims) && m.lastBoot == Some(bms)
                  && after.Keys == machines.Keys + {req.hostname.value}
                  && forall h :: h in machines && h != req.hostname.value ==> after[h] == machines[h])
  {
    ParseWmiDateSpec(ims, []);
    ParseWmiDateSpec(bms, []);
    assert ParseWmiDate(req.installDate) == Ok(Some(ims));
    assert ParseWmiDate(req.lastBoot) == Ok(Some(bms));
    CheckinWithSpec(req, tokens, machines, newId, now, Some(ims), Some(bms));
  }

  /** The check-in once both dates parsed: the token gate, then one machine stored. */
  lemma CheckinWithSpec(req: CheckinRequest, tokens: seq<AgentToken>, machines: map<string, MachineRow>, newId: nat,
                        now: int, install: Option<nat>, boot: Option<nat>)
    ensures var (reply, after) := CheckinWith(req, tokens, machines, newId, now, Ok(install), Ok(boot));
            (reply.code == 200 <==> req.hostname.Some? && req.token.Some? && ActiveHash(tokens, req.token.value))
            && (reply.code != 200 ==> after == machines)
            && (reply.code == 200 ==>
                  req.hostname.Some? && req.hostname.value in after &&
                  var m := after[req.hostname.value];
                  m.isOnline && m.lastSeen == Some(now) && m.installDate == install && m.lastBoot == boot
                  && after.Keys == machines.Keys + {req.hostname.value}
                  && forall h :: h in machines && h != req.hostname.value ==> after[h] == machines[h])
  {
  }

  /** Expiry is not checked at check-in: an expired active token still opens the gate. */
  lemma CheckinIgnoresExpiry(req: CheckinRequest, tokens: seq<AgentToken>, machines: map<string, MachineRow>,
                             newId: nat, now: int, k: nat)
    requires k < |tokens| && tokens[k].isActive && Expired(tokens[k], now)
    requires req.hostname.Some? && req.token == Some(tokens[k].tokenHash)
    requires req.installDate.None? && req.lastBoot.None?
    ensures Checkin(req, tokens, machines, newId, now).0.code == 200
  {
    assert ParseWmiDate(None) == Ok(None) by {
      assert SearchFrom([], 0).None?;
    }
  }

  // ---------------------------------------------------------------- updates

  /** `version_tuple`: the integers of a dotted version, or (0, 0, 0) when a part is not one. */
  function VersionTuple(v: string): (r: seq<int>)
    ensures |r| >= 1
  {
    var parts := SplitOn(v, '.');
    if forall i :: 0 <= i < |parts| ==> ParseInt(parts[i]).Some? then
      seq(|parts|, i requires 0 <= i < |parts| => ParseInt(parts[i]).value)
    else [0, 0, 0]
  }

  /** Python's `<` on tuples of integers: lexicographic, a proper prefix first. */
  predicate TupleLess(a: seq<int>, b: seq<int>)
    decreases |a|
  {
    if a == [] then b != []
    else if b == [] then false
    else if a[0] != b[0] then a[0] < b[0]
    else TupleLess(a[1..], b[1..])
  }

  /** Tuple order is a strict total order. */
  lemma {:induction false} TupleLessTotal(a: seq<int>, b: seq<int>)
    ensures !(TupleLess(a, b) && TupleLess(b, a))
    ensures TupleLess(a, b) || a == b || TupleLess(b, a)
    decreases |a|
  {
    if a != [] && b != [] && a[0] == b[0] {
      TupleLessTotal(a[1..], b[1..]);
      if a[1..] == b[1..] {
        assert a == [a[0]] + a[1..] && b == [b[0]] + b[1..];
      }
    }
  }

  lemma {:induction false} TupleLessTransitive(a: seq<int>, b: seq<int>, c: seq<int>)
    requires TupleLess(a, b) && TupleLess(b, c)
    ensures TupleLess(a, c)
    decreases |a|
  {
    if a != [] && a[0] == b[0] && b[0] == c[0] {
      TupleLessTransitive(a[1..], b[1..], c[1..]);
    }
  }

  /** A version is older than any longer version it is a prefix of: (1, 2) < (1, 2, 0). */
  lemma {:induction false} PrefixIsOlder(a: seq<int>, rest: seq<int>)
    requires rest != []
    ensures TupleLess(a, a + rest)
    decreases |a|
  {
    if a != [] {
      assert (a + rest)[1..] == a[1..] + rest;
      PrefixIsOlder(a[1..], rest);
    }
  }

  /** The digits of a version, joined by dots. */
  function VersionText(xs: seq<nat>): string {
    Join(seq(|xs|, i requires 0 <= i < |xs| => NatToString(xs[i])), ".")
  }

  /** A version written as dotted naturals is read back as those naturals. */
  lemma VersionTupleRoundTrip(xs: seq<nat>)
    requires xs != []
    ensures VersionTuple(VersionText(xs)) == xs
  {
    var parts := seq(|xs|, i requires 0 <= i < |xs| => NatToString(xs[i]));
    forall i | 0 <= i < |parts|
      ensures '.' !in parts[i] && ParseInt(parts[i]) == Some(xs[i])
    {
      ParseIntOfNat(xs[i]);
      assert AllDigits(parts[i]);
      assert forall j :: 0 <= j < |parts[i]| ==> parts[i][j] != '.';
    }
    SplitJoin(parts, '.');
  }

  /** Text that is not a number makes the version (0, 0, 0). */
  lemma VersionTupleFallback(v: string, i: nat)
    requires i < |SplitOn(v, '.')| && ParseInt(SplitOn(v, '.')[i]).None?
    ensures VersionTuple(v) == [0, 0, 0]
  {
  }

  /** An `AgentVersion` row. */
  datatype AgentVersion = AgentVersion(pk: nat, version: string, isActive: bool, isMandatory: bool, createdAt: int)

  /** The newest active version among the first `n` rows; ties keep the earlier row. */
  function LatestActive(vs: seq<AgentVersion>, n: nat): (r: Option<nat>)
    requires n <= |vs|
    ensures r.Some? ==> r.value < n && vs[r.value].isActive
                        && forall j :: 0 <= j < n && vs[j].isActive ==> vs[j].createdAt <= vs[r.value].createdAt
    ensures r.None? ==> forall j :: 0 <= j < n ==> !vs[j].isActive
  {
    if n == 0 then None
    else
      var p := LatestActive(vs, n - 1);
      if vs[n - 1].isActive && (p.None? || vs[n - 1].createdAt > vs[p.value].createdAt) then Some(n - 1) else p
  }

  /** `AgentCheckUpdateAPIView.post`: whether an update is offered, and which row. */
  function CheckUpdate(currentVersion: Option<string>, vs: seq<AgentVersion>): (r: Option<AgentVersion>)
  {
    match LatestActive(vs, |vs|)
    case None => None
    case Some(k) =>
      if TupleLess(VersionTuple(currentVersion.GetOr("0.0.0")), VersionTuple(vs[k].version)) || vs[k].isMandatory
      then Some(vs[k]) else None
  }

  /**
   * An update is offered exactly when the newest active version is newer
   * than the agent's or mandatory; nothing is offered without an active
   * version, and an agent already on a non-mandatory newest version is
   * left alone.
   */
  lemma CheckUpdateSpec(currentVersion: Option<string>, vs: seq<AgentVersion>)
    ensures var r := CheckUpdate(currentVersion, vs);
            var cur := VersionTuple(currentVersion.GetOr("0.0.0"));
            r.Some? ==> r.value.isActive
                        && (forall j :: 0 <= j < |vs| && vs[j].isActive ==> vs[j].createdAt <= r.value.createdAt)
                        && (TupleLess(cur, VersionTuple(r.value.version)) || r.value.isMandatory)
    ensures var r := CheckUpdate(currentVersion, vs);
            var cur := VersionTuple(currentVersion.GetOr("0.0.0"));
            var l := LatestActive(vs, |vs|);
            r.None? <==> l.None? || (!TupleLess(cur, VersionTuple(vs[l.value].version)) && !vs[l.value].isMandatory)
    ensures (forall j :: 0 <= j < |vs| ==> !vs[j].isActive) ==> CheckUpdate(currentVersion, vs).None?
  {
    var l := LatestActive(vs, |vs|);
    if l.None? {
      assert CheckUpdate(currentVersion, vs) == None;
    } else {
      var k := l.value;
      assert CheckUpdate(currentVersion, vs).Some? ==> CheckUpdate(currentVersion, vs).value == vs[k];
    }
    if forall j :: 0 <= j < |vs| ==> !vs[j].isActive {
      assert l.None?;
    }
  }

  /** An agent on the newest version gets no update unless that version is mandatory. */
  lemma UpToDateNotOffered(vs: seq<AgentVersion>)
    requires LatestActive(vs, |vs|).Some?
    ensures var v := vs[LatestActive(vs, |vs|).value];
            CheckUpdate(Some(v.version), vs).Some? <==> v.isMandatory
  {
    var v := vs[LatestActive(vs, |vs|).value];
    TupleLessTotal(VersionTuple(v.version), VersionTuple(v.version));
  }
}
