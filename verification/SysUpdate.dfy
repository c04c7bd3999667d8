/** The system-update tracker, the version cache, and the apt check. Times are nanoseconds since Go's zero time. */
module SysUpdate {
  import opened Strings
  import opened Config
  import VersionText

  const ZERO_TIME := 0
  const VERSION_CACHE_TTL := 20 * MINUTE

  // ---------- counting packages ----------

  /** How many of the lines start with `word`. */
  function LinesWith(word: string, lines: seq<string>): nat
  {
    if lines == [] then 0 else (if word <= lines[0] then 1 else 0) + LinesWith(word, lines[1..])
  }

  lemma {:induction false} LinesWithConcat(word: string, a: seq<string>, b: seq<string>)
    ensures LinesWith(word, a + b) == LinesWith(word, a) + LinesWith(word, b)
  {
    if a == [] {
      assert a + b == b;
    } else {
      assert (a + b)[1..] == a[1..] + b;
      LinesWithConcat(word, a[1..], b);
    }
  }

  /** bufio.ScanLines drops one carriage return at the end of a line. */
  function DropCr(line: string): string
  {
    if line != "" && line[|line| - 1] == '\r' then line[..|line| - 1] else line
  }

  /** How many packages a simulated upgrade would install: apt prints a line that starts with Inst for each. */
  method CountInstLines(output: string) returns (n: nat)
    ensures n == LinesWith("Inst ", Split(output))
  {
    n := 0;
    var pos := 0;
    while pos < |output|
      invariant 0 <= pos <= |output|
      invariant LinesWith("Inst ", Split(output)) == n + LinesWith("Inst ", Split(output[pos..]))
    {
      var end := pos;
      while end < |output| && output[end] != '\n'
        invariant pos <= end <= |output|
        invariant NL !in output[pos..end]
      {
        end := end + 1;
      }
      var line := DropCr(output[pos..end]);
      var next := if end < |output| then end + 1 else end;
      LineEnds(output, pos, end, next);
      FirstLineCounts(output[pos..], output[pos..end], output[next..]);
      if "Inst " <= line {
        n := n + 1;
      }
      pos := next;
    }
  }

  /** Dropping the carriage return does not matter for a line to start with the word. */
  lemma InstBeforeCr(line: string)
    ensures "Inst " <= DropCr(line) <==> "Inst " <= line
  {
    if "Inst " <= line && |line| == 5 {
      assert line[4] == "Inst "[4] == ' ';
    }
  }

  lemma LineEnds(s: string, pos: nat, end: nat, next: nat)
    requires pos <= end <= |s|
    requires if end < |s| then s[end] == NL && next == end + 1 else next == end
    ensures var text, line, rest := s[pos..], s[pos..end], s[next..];
      text == line + [NL] + rest || (text == line && rest == "")
  {
  }

  lemma FirstLineCounts(text: string, line: string, rest: string)
    requires NL !in line && (text == line + [NL] + rest || (text == line && rest == ""))
    ensures LinesWith("Inst ", Split(text))
         == (if "Inst " <= DropCr(line) then 1 else 0) + LinesWith("Inst ", Split(rest))
  {
    InstBeforeCr(line);
    SplitOfLine(line);
    assert [line][1..] == [] && [""][1..] == [];
    if text != line {
      SplitAtNewline(line, rest);
      LinesWithConcat("Inst ", [line], Split(rest));
    }
  }

  datatype Outcome = Success(count: int) | Failure(message: string)

  /**
   * The built-in check. `update` and `simulate` are what the two apt commands would give: an error, or
   * standard output. Only a simulation that ran as root on a refreshed index gives a count.
   */
  method CheckApt(euid: int, update: Option<string>, simulate: Option<string>, output: string) returns (r: Outcome)
    ensures r.Success? <==> euid == 0 && update.None? && simulate.None?
    ensures r.Success? ==> r.count == LinesWith("Inst ", Split(output))
    ensures r.Failure? && euid != 0 ==> r.message == "apt update check requires root"
    ensures r.Failure? && euid == 0 && update.Some? ==> r.message == "apt-get update: " + update.value
    ensures r.Failure? && euid == 0 && update.None? ==>
      r.message == "apt-get dist-upgrade simulate: " + simulate.GetOr("")
  {
    if euid != 0 {
      return Failure("apt update check requires root");
    }
    if update.Some? {
      return Failure("apt-get update: " + update.value);
    }
    if simulate.Some? {
      return Failure("apt-get dist-upgrade simulate: " + simulate.value);
    }
    var n := CountInstLines(output);
    r := Success(n);
  }

  // ---------- numbers in text ----------

  const MAX_INT := 0x7FFF_FFFF_FFFF_FFFF

  predicate AllDigits(s: string)
  {
    forall i :: 0 <= i < |s| ==> '0' <= s[i] <= '9'
  }

  function ValueOf(digits: string): (n: int)
    requires AllDigits(digits)
    ensures n >= 0
  {
    if digits == "" then 0
    else 10 * ValueOf(digits[..|digits| - 1]) + (digits[|digits| - 1] - '0') as int
  }

  /** The text without a sign in front. */
  function Unsigned(s: string): string
  {
    if s != "" && (s[0] == '+' || s[0] == '-') then s[1..] else s
  }

  /** strconv.Atoi on a 64-bit machine; None is its error. */
  function Atoi(s: string): Option<int>
  {
    var body := Unsigned(s);
    if body == "" || !AllDigits(body) then None
    else
      var v: int := if s[0] == '-' then -ValueOf(body) else ValueOf(body);
      if -MAX_INT - 1 <= v <= MAX_INT then Some(v) else None
  }

  /** What strconv.Atoi returns beside its error: the nearest number, or zero for what is not a number. */
  function OutOfRange(s: string): int
  {
    var body := Unsigned(s);
    if body == "" || !AllDigits(body) then 0 else if s[0] == '-' then -MAX_INT - 1 else MAX_INT
  }

  lemma {:induction false} ValueOfDigits(n: nat)
    ensures ValueOf(Digits(n)) == n
  {
    var s := Digits(n);
    var d := ['0' + (n % 10) as char];
    if n < 10 {
      assert s == d && s[..0] == "";
      assert ValueOf(s) == 10 * ValueOf(s[..0]) + n;
    } else {
      ValueOfDigits(n / 10);
      assert s == Digits(n / 10) + d;
      assert s[..|s| - 1] == Digits(n / 10);
    }
  }

  lemma AtoiOfPositive(d: string)
    requires d != "" && AllDigits(d) && ValueOf(d) <= MAX_INT
    ensures Atoi(d) == Some(ValueOf(d))
  {
  }

  lemma AtoiOfNegative(d: string)
    requires d != "" && AllDigits(d) && ValueOf(d) <= MAX_INT + 1
    ensures Atoi("-" + d) == Some(-ValueOf(d))
  {
    assert ("-" + d)[1..] == d;
  }

  lemma AtoiOfItoa(n: int)
    requires -MAX_INT - 1 <= n <= MAX_INT
    ensures Atoi(Itoa(n)) == Some(n)
  {
    if n < 0 {
      ValueOfDigits(-n);
      AtoiOfNegative(Digits(-n));
    } else {
      ValueOfDigits(n);
      AtoiOfPositive(Digits(n));
    }
  }

  /** `s` is an optional sign, any zeros and the decimal digits of the number `n`. */
  ghost predicate Denotes(s: string, n: int)
  {
    exists sign, zeros :: IsNumeral(s, sign, zeros, n)
  }

  ghost predicate IsNumeral(s: string, sign: string, zeros: string, n: int)
  {
    && s == sign + zeros + Digits(if n < 0 then -n else n)
    && sign in {"", "+", "-"} && (if sign == "-" then n <= 0 else n >= 0)
    && AllZeros(zeros)
  }

  ghost predicate AllZeros(s: string)
  {
    forall i :: 0 <= i < |s| ==> s[i] == '0'
  }

  lemma DigitsExtend(v: nat, c: char)
    requires '0' <= c <= '9'
    ensures Digits(10 * v + (c - '0') as int) == if v == 0 then [c] else Digits(v) + [c]
  {
  }

  lemma AppendDigit(zeros: string, v: nat, c: char) returns (more: string)
    requires AllZeros(zeros) && '0' <= c <= '9'
    ensures zeros + Digits(v) + [c] == more + Digits(10 * v + (c - '0') as int) && AllZeros(more)
  {
    DigitsExtend(v, c);
    more := if v == 0 then zeros + "0" else zeros;
    if v > 0 {
      ConcatAssoc(zeros, Digits(v), [c]);
    }
  }

  /** Digits are zeros and the digits of their value. */
  lemma {:induction false} DigitsOfValue(d: string) returns (zeros: string)
    requires d != "" && AllDigits(d)
    ensures d == zeros + Digits(ValueOf(d)) && AllZeros(zeros)
  {
    var init, last := d[..|d| - 1], d[|d| - 1];
    assert d == init + [last];
    if init == "" {
      zeros := "";
      DigitsExtend(0, last);
    } else {
      zeros := DigitsOfValue(init);
      zeros := AppendDigit(zeros, ValueOf(init), last);
    }
  }

  /** Leading zeros do not count. */
  lemma {:induction false} ZerosDoNotCount(zeros: string, d: string)
    requires AllDigits(d) && AllZeros(zeros)
    ensures AllDigits(zeros + d) && ValueOf(zeros + d) == ValueOf(d)
    decreases |zeros| + |d|
  {
    if d != "" {
      assert (zeros + d)[..|zeros + d| - 1] == zeros + d[..|d| - 1];
      ZerosDoNotCount(zeros, d[..|d| - 1]);
    } else if zeros != "" {
      assert zeros + d == zeros;
      assert zeros[..|zeros| - 1] + d == zeros[..|zeros| - 1];
      ZerosDoNotCount(zeros[..|zeros| - 1], d);
    }
  }

  function Signed(sign: string, v: int): int
  {
    if sign == "-" then -v else v
  }

  /** How a sign and digits are read, by their value. */
  lemma AtoiOfSigned(sign: string, body: string)
    requires sign in {"", "+", "-"} && body != "" && AllDigits(body)
    ensures var v := Signed(sign, ValueOf(body));
      && Atoi(sign + body) == (if -MAX_INT - 1 <= v <= MAX_INT then Some(v) else None)
      && OutOfRange(sign + body) == if sign == "-" then -MAX_INT - 1 else MAX_INT
  {
    UnsignedOfSigned(sign, body);
  }

  lemma UnsignedOfSigned(sign: string, body: string)
    requires sign in {"", "+", "-"} && body != "" && body[0] !in {'+', '-'}
    ensures Unsigned(sign + body) == body && ((sign + body)[0] == '-' <==> sign == "-")
  {
    if sign == "" {
      assert sign + body == body;
    } else {
      assert (sign + body)[1..] == body && (sign + body)[0] == sign[0];
    }
  }

  /** What is read consists of a sign and digits. */
  lemma ReadIsSigned(s: string) returns (sign: string, body: string)
    requires Atoi(s).Some? || OutOfRange(s) != 0
    ensures s == sign + body && sign in {"", "+", "-"} && body != "" && AllDigits(body)
  {
    if s[0] == '+' || s[0] == '-' {
      sign, body := s[..1], s[1..];
      assert sign == if s[0] == '+' then "+" else "-";
    } else {
      sign, body := "", s;
    }
  }

  lemma SignedDenotes(sign: string, body: string)
    requires sign in {"", "+", "-"} && body != "" && AllDigits(body)
    ensures Denotes(sign + body, Signed(sign, ValueOf(body)))
  {
    var zeros := DigitsOfValue(body);
    var v := ValueOf(body);
    ConcatAssoc(sign, zeros, Digits(v));
    if sign == "-" {
      assert IsNumeral(sign + body, sign, zeros, -v);
    } else {
      assert IsNumeral(sign + body, sign, zeros, v);
    }
  }

  /** A numeral consists of a sign and digits with that value. */
  lemma DenotedIsSigned(s: string, n: int) returns (sign: string, body: string)
    requires Denotes(s, n)
    ensures s == sign + body && sign in {"", "+", "-"} && body != "" && AllDigits(body)
    ensures n == Signed(sign, ValueOf(body))
  {
    var zeros;
    sign, zeros :| IsNumeral(s, sign, zeros, n);
    var d := Digits(if n < 0 then -n else n);
    ZerosDoNotCount(zeros, d);
    ValueOfDigits(if n < 0 then -n else n);
    body := zeros + d;
    ConcatAssoc(sign, zeros, d);
  }

  lemma DenotedIsRead(s: string, n: int)
    requires Denotes(s, n)
    ensures Atoi(s) == if -MAX_INT - 1 <= n <= MAX_INT then Some(n) else None
    ensures n < -MAX_INT - 1 ==> OutOfRange(s) == -MAX_INT - 1
    ensures n > MAX_INT ==> OutOfRange(s) == MAX_INT
  {
    var sign, body := DenotedIsSigned(s, n);
    AtoiOfSigned(sign, body);
  }

  lemma ReadDenotes(s: string, n: int)
    requires Atoi(s) == Some(n)
    ensures Denotes(s, n)
  {
    var sign, body := ReadIsSigned(s);
    AtoiOfSigned(sign, body);
    SignedDenotes(sign, body);
  }

  predicate Is64Bit(n: int)
  {
    -0x8000_0000_0000_0000 <= n <= 0x7FFF_FFFF_FFFF_FFFF
  }

  /** Exactly the numerals of 64-bit numbers are read, as the number whose digits they are. */
  lemma AtoiIff(s: string, n: int)
    ensures Atoi(s) == Some(n) <==> Denotes(s, n) && Is64Bit(n)
  {
    if Atoi(s) == Some(n) {
      ReadDenotes(s, n);
    }
    if Denotes(s, n) {
      DenotedIsRead(s, n);
    }
  }

  /** A character that is neither a digit nor a sign in front spoils a numeral. */
  lemma StrayIsNoNumber(s: string, i: nat)
    requires i < |s| && !('0' <= s[i] <= '9') && !(i == 0 && s[i] in {'+', '-'})
    ensures Atoi(s) == None
  {
    if s[0] == '+' || s[0] == '-' {
      assert s[1..][i - 1] == s[i];
    }
  }

  // ---------- the tracker ----------

  datatype Status = Status(
    count: int,
    hasCount: bool,
    lastChecked: int,
    lastAttempt: int,
    lastError: string,
    lastErrorTime: int
  )

  const ZERO_STATUS := Status(0, false, ZERO_TIME, ZERO_TIME, "", ZERO_TIME)

  type Statuses = map<string, Status>

  function StatusOf(m: Statuses, app: string): Status
  {
    if app in m then m[app] else ZERO_STATUS
  }

  /** Whether a fresh check should run now. */
  predicate IsDue(st: Status, interval: int, now: int)
  {
    st.lastAttempt == ZERO_TIME || now - st.lastAttempt >= interval
  }

  function Attempted(m: Statuses, app: string, now: int): Statuses
  {
    m[app := StatusOf(m, app).(lastAttempt := now)]
  }

  function Reported(m: Statuses, app: string, o: Outcome, now: int): Statuses
  {
    var st := StatusOf(m, app);
    m[app := match o
             case Success(count) =>
               st.(count := count, hasCount := true, lastChecked := now, lastError := "", lastErrorTime := ZERO_TIME)
             case Failure(message) => st.(lastError := message, lastErrorTime := now)]
  }

  class Tracker {
    var statuses: Statuses

    constructor ()
      ensures statuses == map[]
    {
      statuses := map[];
    }

    /** The entry of an app, made on first use. */
    method Touch(app: string) returns (st: Status)
      modifies this
      ensures st == StatusOf(old(statuses), app) && statuses == old(statuses)[app := st]
    {
      if app !in statuses {
        statuses := statuses[app := ZERO_STATUS];
      }
      st := statuses[app];
      assert statuses == old(statuses)[app := st];
    }

    method TryAcquire(app: string, interval: int, now: int) returns (acquired: bool)
      modifies this
      ensures acquired <==> IsDue(StatusOf(old(statuses), app), interval, now)
      ensures acquired <==> app !in old(statuses) || old(statuses)[app].lastAttempt == 0
                            || now - old(statuses)[app].lastAttempt >= interval
      ensures statuses == if acquired then Attempted(old(statuses), app, now) else old(statuses)
    {
      var st := Touch(app);
      if st.lastAttempt != ZERO_TIME && now - st.lastAttempt < interval {
        assert statuses == old(statuses);
        return false;
      }
      statuses := statuses[app := st.(lastAttempt := now)];
      return true;
    }

    method MarkAttempt(app: string, now: int)
      modifies this
      ensures statuses == Attempted(old(statuses), app, now)
    {
      var st := Touch(app);
      statuses := statuses[app := st.(lastAttempt := now)];
    }

    method RecordSuccess(app: string, count: int, now: int)
      modifies this
      ensures statuses == Reported(old(statuses), app, Success(count), now)
    {
      var st := Touch(app);
      st := st.(count := count);
      st := st.(hasCount := true);
      st := st.(lastChecked := now);
      st := st.(lastError := "");
      st := st.(lastErrorTime := ZERO_TIME);
      statuses := statuses[app := st];
    }

    method RecordError(app: string, message: string, now: int)
      modifies this
      ensures statuses == Reported(old(statuses), app, Failure(message), now)
    {
      var st := Touch(app);
      st := st.(lastError := message);
      st := st.(lastErrorTime := now);
      statuses := statuses[app := st];
    }

    /** A snapshot, or nothing for an app that was never tracked. */
    method Info(app: string) returns (info: Option<Status>)
      ensures info == if app in statuses then Some(statuses[app]) else None
    {
      if app !in statuses {
        return None;
      }
      return Some(statuses[app]);
    }
  }

  // ---------- the version cache ----------

  datatype Entry = Entry(version: string, fetchedAt: int)

  type Entries = map<string, Entry>

  function Cached(entries: Entries, name: string, now: int): Option<string>
  {
    if name in entries && now - entries[name].fetchedAt <= VERSION_CACHE_TTL then Some(entries[name].version) else None
  }

  class VersionCache {
    var entries: Entries

    constructor ()
      ensures entries == map[]
    {
      entries := map[];
    }

    method Set(name: string, version: string, now: int)
      modifies this
      ensures entries == old(entries)[name := Entry(version, now)]
    {
      entries := entries[name := Entry(version, now)];
    }

    method Get(name: string, now: int) returns (version: Option<string>)
      ensures version == Cached(entries, name, now)
      ensures version.Some? <==> name in entries && now - entries[name].fetchedAt <= 1_200_000_000_000
    {
      if name !in entries {
        return None;
      }
      if now - entries[name].fetchedAt > VERSION_CACHE_TTL {
        return None;
      }
      return Some(entries[name].version);
    }
  }

  // ---------- the two together ----------

  function CountKey(app: string): string
  {
    "__sysupdate:" + app
  }

  function LatestKey(name: string): string
  {
    "__latest:" + name
  }

  lemma CountKeyFacts(app: string, other: string)
    ensures CountKey(app) == "__sysupdate:" + app && LatestKey(other) == "__latest:" + other
    ensures CountKey(app) == CountKey(other) ==> app == other
    ensures CountKey(app) != LatestKey(other)
    ensures |CountKey(app)| >= 2 && CountKey(app)[..2] == "__"
  {
    assert CountKey(app)[12..] == app && CountKey(other)[12..] == other;
    assert CountKey(app)[2] == 's' && LatestKey(other)[2] == 'l';
  }

  /** A published count that does not parse counts as zero; one out of range as the nearest number. */
  function PublishedCount(text: string): int
  {
    match Atoi(text)
    case Some(n) => n
    case None => OutOfRange(text)
  }

  /** A published numeral counts as its number, or the nearest 64-bit one, and any other text as zero. */
  lemma PublishedCountIs(text: string)
    ensures forall n :: Denotes(text, n) && Is64Bit(n) ==> PublishedCount(text) == n
    ensures forall n :: Denotes(text, n) && n > 0x7FFF_FFFF_FFFF_FFFF ==>
      PublishedCount(text) == 0x7FFF_FFFF_FFFF_FFFF
    ensures forall n :: Denotes(text, n) && n < -0x8000_0000_0000_0000 ==>
      PublishedCount(text) == -0x8000_0000_0000_0000
    ensures (forall n :: !Denotes(text, n)) ==> PublishedCount(text) == 0
  {
    forall n | Denotes(text, n)
      ensures Is64Bit(n) ==> PublishedCount(text) == n
      ensures n > 0x7FFF_FFFF_FFFF_FFFF ==> PublishedCount(text) == 0x7FFF_FFFF_FFFF_FFFF
      ensures n < -0x8000_0000_0000_0000 ==> PublishedCount(text) == -0x8000_0000_0000_0000
    {
      DenotedIsRead(text, n);
    }
    if PublishedCount(text) != 0 {
      var sign, body := ReadIsSigned(text);
      SignedDenotes(sign, body);
    }
  }

  /** The count that users see: the tracker's, else the cached one, else zero. */
  function CountOf(m: Statuses, entries: Entries, app: string, now: int): int
  {
    if app in m && m[app].hasCount then m[app].count
    else
      match Cached(entries, CountKey(app), now)
      case Some(text) => PublishedCount(text)
      case None => 0
  }

  method SystemUpdateCount(tracker: Tracker, cache: VersionCache, app: string, now: int) returns (n: int)
    ensures n == CountOf(tracker.statuses, cache.entries, app, now)
  {
    var info := tracker.Info(app);
    if info.Some? && info.value.hasCount {
      return info.value.count;
    }
    var text := cache.Get(CountKey(app), now);
    if text.None? {
      return 0;
    }
    return PublishedCount(text.value);
  }

  lemma ReadOrNot(s: string)
    ensures Atoi(s).Some? ==> Denotes(s, Atoi(s).value) && Is64Bit(Atoi(s).value)
    ensures Atoi(s).None? ==> forall n :: Denotes(s, n) ==> !Is64Bit(n)
    ensures s == "" ==> Atoi(s).None?
    ensures (exists i :: 0 <= i < |s| && !('0' <= s[i] <= '9') && !(i == 0 && s[i] in {'+', '-'})) ==> Atoi(s).None?
  {
    if Atoi(s).Some? {
      ReadDenotes(s, Atoi(s).value);
    } else {
      forall n | Denotes(s, n) ensures !Is64Bit(n) {
        DenotedIsRead(s, n);
      }
    }
    if i :| 0 <= i < |s| && !('0' <= s[i] <= '9') && !(i == 0 && s[i] in {'+', '-'}) {
      StrayIsNoNumber(s, i);
    }
  }

  /**
   * The freeform check: the last non-blank line of the output, as a number. Anything else is a failure, so that
   * a broken command does not count as no updates.
   */
  method CheckFreeform(failed: Option<string>, output: string) returns (r: Outcome)
    ensures failed.Some? ==> r == Failure(failed.value)
    ensures failed.None? && r.Success? ==>
      Denotes(VersionText.LastText(Split(output)), r.count) && Is64Bit(r.count)
    ensures failed.None? && r.Failure? ==>
      forall n :: Denotes(VersionText.LastText(Split(output)), n) ==> !Is64Bit(n)
    ensures failed.None? && VersionText.LastText(Split(output)) == "" ==> r.Failure?
    ensures failed.None? ==>
      var t := VersionText.LastText(Split(output));
      forall i :: 0 <= i < |t| && !('0' <= t[i] <= '9') && !(i == 0 && t[i] in {'+', '-'}) ==> r.Failure?
  {
    if failed.Some? {
      return Failure(failed.value);
    }
    var raw := VersionText.VersionFromOutput(output);
    ReadOrNot(raw);
    match Atoi(raw)
    case Some(n) => r := Success(n);
    case None => r := Failure("system_update_check parse error: raw output " + raw);
  }

  /** A number that a command prints is read back, whatever a banner printed before it. */
  lemma PrintedCountIsRead(banner: string, n: int)
    requires -MAX_INT - 1 <= n <= MAX_INT
    ensures Atoi(VersionText.LastText(Split(banner + [NL] + (Itoa(n) + [NL])))) == Some(n)
  {
    var text := Itoa(n);
    ItoaIsALine(n);
    SplitOfLine(text);
    assert [text][..0] == [];
    assert VersionText.LastText([text]) == text;
    VersionText.SpaceAtEnd(text, NL);
    VersionText.BannerInsensitive(banner, text + [NL]);
    AtoiOfItoa(n);
  }

  lemma ItoaIsALine(n: int)
    ensures Itoa(n) != "" && NL !in Itoa(n) && TrimSpace(Itoa(n)) == Itoa(n)
  {
    ItoaCharacters(n);
    NothingToTrim(Itoa(n));
  }

  lemma ItoaCharacters(n: int)
    ensures Itoa(n) != "" && forall i :: 0 <= i < |Itoa(n)| ==> Itoa(n)[i] == '-' || '0' <= Itoa(n)[i] <= '9'
  {
  }

  // ---------- one check, from attempt to publication ----------

  /** Writing the last good count to the cache, if there is one. */
  function Republished(m: Statuses, entries: Entries, app: string, now: int): Entries
  {
    if app in m && m[app].hasCount then entries[CountKey(app) := Entry(Itoa(m[app].count), now)] else entries
  }

  method RepublishSystemUpdateCount(tracker: Tracker, cache: VersionCache, app: string, now: int)
    modifies cache
    ensures cache.entries == Republished(tracker.statuses, old(cache.entries), app, now)
  {
    var info := tracker.Info(app);
    if info.Some? && info.value.hasCount {
      cache.Set(CountKey(app), Itoa(info.value.count), now);
    }
  }

  predicate RunsNow(m: Statuses, name: string, app: App, parse: string -> Option<int>, force: bool, now: int)
  {
    force || IsDue(StatusOf(m, name), RefreshDuration(app.systemUpdates, parse), now)
  }

  /**
   * One check when no other runs meanwhile. `built` and `free` are what the two kinds of checks would
   * report; t0, t1 and t2 are the times of the attempt, the report and the cache write.
   */
  method CheckSystemUpdates(tracker: Tracker, cache: VersionCache, name: string, app: App, force: bool,
      parse: string -> Option<int>, built: Outcome, free: Outcome, t0: int, t1: int, t2: int)
    modifies tracker, cache
    ensures !Enabled(app.systemUpdates) && app.systemUpdateCheck == "" ==>
      tracker.statuses == old(tracker.statuses) && cache.entries == old(cache.entries)
    ensures Enabled(app.systemUpdates) && !RunsNow(old(tracker.statuses), name, app, parse, force, t0) ==>
        tracker.statuses == old(tracker.statuses)
        && cache.entries == Republished(tracker.statuses, old(cache.entries), name, t2)
    ensures Enabled(app.systemUpdates) && RunsNow(old(tracker.statuses), name, app, parse, force, t0) ==>
        tracker.statuses == Reported(Attempted(old(tracker.statuses), name, t0), name, built, t1)
        && cache.entries == Republished(tracker.statuses, old(cache.entries), name, t2)
    ensures !Enabled(app.systemUpdates) && app.systemUpdateCheck != "" ==>
      tracker.statuses == Reported(old(tracker.statuses), name, free, t1)
      && cache.entries == if free.Success? then Republished(tracker.statuses, old(cache.entries), name, t2)
                          else old(cache.entries)
  {
    if Enabled(app.systemUpdates) {
      var interval := RefreshDuration(app.systemUpdates, parse);
      if force {
        tracker.MarkAttempt(name, t0);
      } else {
        var acquired := tracker.TryAcquire(name, interval, t0);
        if !acquired {
          RepublishSystemUpdateCount(tracker, cache, name, t2);
          return;
        }
      }
      if built.Failure? {
        tracker.RecordError(name, built.message, t1);
        RepublishSystemUpdateCount(tracker, cache, name, t2);
        return;
      }
      tracker.RecordSuccess(name, built.count, t1);
      cache.Set(CountKey(name), Itoa(built.count), t2);
      return;
    }
    if app.systemUpdateCheck != "" {
      if free.Failure? {
        tracker.RecordError(name, free.message, t1);
        return;
      }
      tracker.RecordSuccess(name, free.count, t1);
      cache.Set(CountKey(name), Itoa(free.count), t2);
    }
  }
}
