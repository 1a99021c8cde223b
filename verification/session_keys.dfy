/** The keys `{uid}_{session}_{index}` of agent loop outputs
    (verl/trainer/main_ppo_sync.py, lines 148-151 and 874-877). */
module SessionKeys {
  import opened Basics

  /** A key split by `rsplit("_", 2)` and `int`, or why that fails. */
  datatype Parse = Parsed(session: string, index: int) | NotThreeParts | NotANumber

  /** Python's `int` on a text, whatever it accepts beyond plain digits. */
  type ToInt = string -> Option<int>

  /** All that is needed of `int`: it reads what was printed. */
  ghost predicate ReadsDecimals(toInt: ToInt) { forall n: nat :: toInt(Decimal(n)) == Some(n) }

  /** The position of the last underscore, or -1. */
  function LastUnderscore(s: string): (i: int)
    ensures -1 <= i < |s|
    ensures i >= 0 ==> s[i] == '_'
    ensures forall j :: i < j < |s| ==> s[j] != '_'
  {
    if s == [] then -1 else if s[|s| - 1] == '_' then |s| - 1 else LastUnderscore(s[..|s| - 1])
  }

  predicate IsDigit(c: char) { '0' <= c <= '9' }

  /** `int` on plain digits. */
  function ParseDigits(s: string): Option<nat> {
    if s == [] || !IsDigit(s[|s| - 1]) then None
    else
      var digit := s[|s| - 1] as int - '0' as int;
      if |s| == 1 then Some(digit)
      else
        var front := ParseDigits(s[..|s| - 1]);
        if front.None? then None else Some(10 * front.value + digit)
  }

  /** The session is everything before the last underscore, put together again. */
  function ParseKey(toInt: ToInt, key: string): Parse {
    var i := LastUnderscore(key);
    if i < 0 || LastUnderscore(key[..i]) < 0 then NotThreeParts
    else
      var index := toInt(key[i + 1..]);
      if index.None? then NotANumber
      else
        var j := LastUnderscore(key[..i]);
        Parsed(key[..j] + "_" + key[j + 1..i], index.value)
  }

  /** `rsplit("_", 2)`: the last two underscores part a key, and with fewer it fails; the
      session is all before the last one, the index what `int` makes of all behind it. */
  lemma ParseExact(toInt: ToInt, key: string, i: nat)
    requires i < |key| && key[i] == '_' && forall k :: i < k < |key| ==> key[k] != '_'
    ensures ParseKey(toInt, key).NotThreeParts? <==> '_' !in key[..i]
    ensures ParseKey(toInt, key).NotANumber? <==> '_' in key[..i] && toInt(key[i + 1..]).None?
    ensures '_' in key[..i] && toInt(key[i + 1..]).Some? ==>
      ParseKey(toInt, key) == Parsed(key[..i], toInt(key[i + 1..]).value)
  {
    LastUnderscoreIs(key, i);
    var j := LastUnderscore(key[..i]);
    hide LastUnderscore;
    if '_' in key[..i] { assert key[..j] + "_" + key[j + 1..i] == key[..i]; }
  }

  lemma ParseFails(toInt: ToInt, key: string)
    requires '_' !in key
    ensures ParseKey(toInt, key).NotThreeParts?
  {
  }

  // ---------- printing and reading back ----------

  function Decimal(n: nat): (s: string)
    ensures s != [] && forall i :: 0 <= i < |s| ==> IsDigit(s[i])
  {
    var digit := ('0' as int + n % 10) as char;
    if n < 10 then [digit] else Decimal(n / 10) + [digit]
  }

  function SessionName(uid: string, session: nat): string { uid + "_" + Decimal(session) }

  function OutputKey(uid: string, session: nat, index: nat): string { SessionName(uid, session) + "_" + Decimal(index) }

  /** Reading plain digits is enough. */
  lemma {:induction false} DecimalRoundTrip(n: nat)
    ensures ParseDigits(Decimal(n)) == Some(n)
  {
    var s := Decimal(n);
    if n >= 10 {
      DecimalRoundTrip(n / 10);
      assert s[..|s| - 1] == Decimal(n / 10);
    }
  }

  lemma {:induction false} LastUnderscoreIs(s: string, p: nat)
    requires p < |s| && s[p] == '_' && forall k :: p < k < |s| ==> s[k] != '_'
    ensures LastUnderscore(s) == p
  {
  }

  lemma {:induction false} UnderscoreBefore(a: string, b: string)
    requires forall i :: 0 <= i < |b| ==> IsDigit(b[i])
    ensures LastUnderscore(a + "_" + b) == |a|
  {
    hide LastUnderscore;
    var s := a + "_" + b;
    assert s[|a|] == '_' && |s| == |a| + 1 + |b|;
    forall k | |a| < k < |s| ensures s[k] != '_' { assert s[k] == b[k - |a| - 1]; }
    LastUnderscoreIs(s, |a|);
  }

  lemma Cut(a: string, b: string)
    requires forall i :: 0 <= i < |b| ==> IsDigit(b[i])
    ensures var s := a + "_" + b;
      LastUnderscore(s) == |a| && s[..|a|] == a && s[|a| + 1..] == b
  {
    UnderscoreBefore(a, b);
  }

  lemma DigitsReadDecimals(toInt: ToInt)
    requires forall s :: ParseDigits(s).Some? ==> toInt(s) == Some(ParseDigits(s).value)
    ensures ReadsDecimals(toInt)
  {
    forall n: nat ensures toInt(Decimal(n)) == Some(n) { DecimalRoundTrip(n); }
  }

  /** A printed key reads back, even when the uid has underscores of its own. */
  lemma KeyRoundTrip(toInt: ToInt, uid: string, session: nat, index: nat)
    requires ReadsDecimals(toInt)
    ensures ParseKey(toInt, OutputKey(uid, session, index)) == Parsed(SessionName(uid, session), index)
  {
    hide LastUnderscore, Decimal, SessionName;
    var name := SessionName(uid, session);
    Cut(name, Decimal(index));
    var key := OutputKey(uid, session, index);
    assert key[..LastUnderscore(key)] == name;
    NameSplits(uid, session);
  }

  lemma NameSplits(uid: string, session: nat)
    ensures var name := SessionName(uid, session);
      var j := LastUnderscore(name);
      j >= 0 && name[..j] + "_" + name[j + 1..] == name
  {
    hide LastUnderscore, Decimal;
    Cut(uid, Decimal(session));
  }

  /** Different sessions never share a name. */
  lemma SessionNameInjective(uid: string, session: nat, uid': string, session': nat)
    requires SessionName(uid, session) == SessionName(uid', session')
    ensures uid == uid' && session == session'
  {
    Cut(uid, Decimal(session));
    Cut(uid', Decimal(session'));
    DecimalRoundTrip(session);
    DecimalRoundTrip(session');
    hide LastUnderscore, ParseDigits, Decimal;
  }

  ghost predicate IsPrinted(key: string) { exists uid, session, index :: key == OutputKey(uid, session, index) }

  /** A printed key is determined by its session and index. */
  lemma PrintedKeyDetermined(toInt: ToInt, a: string, b: string)
    requires ReadsDecimals(toInt)
    requires IsPrinted(a) && IsPrinted(b) && ParseKey(toInt, a) == ParseKey(toInt, b)
    ensures a == b && ParseKey(toInt, a).Parsed?
  {
    var uid, session, index :| a == OutputKey(uid, session, index);
    var uid', session', index' :| b == OutputKey(uid', session', index');
    KeyRoundTrip(toInt, uid, session, index);
    KeyRoundTrip(toInt, uid', session', index');
  }
}
