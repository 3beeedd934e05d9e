/** The viewer's two sort keys for one message: the millisecond in the name of an inbox file,
    and the whole-second timestamp of a lane record (tui/relay/relay.go, dispatch_fs.py).
    Decoding an ISO timestamp is the time library's work: it is absent or an epoch second. */
module SortKeys {
  import opened Ids
  import opened Messages

  const INT64_LIMIT := 0x8000_0000_0000_0000

  /** A number as it is printed. */
  function Digits(n: nat): string {
    if n < 10 then [('0' as int + n) as char] else Digits(n / 10) + [('0' as int + n % 10) as char]
  }

  predicate AllDigits(s: string) { s != [] && forall i :: 0 <= i < |s| ==> IsDigit(s[i]) }

  function Value(s: string): nat
    requires forall i :: 0 <= i < |s| ==> IsDigit(s[i])
  {
    if s == [] then 0
    else
      assert IsDigit(s[|s| - 1]);
      Value(s[..|s| - 1]) * 10 + (s[|s| - 1] as int - '0' as int)
  }

  /** `strconv.ParseInt(s, 10, 64)` on a text without a minus sign. */
  function ParseInt(s: string): Option<int> {
    var digits := if s != [] && s[0] == '+' then s[1..] else s;
    if AllDigits(digits) && Value(digits) < INT64_LIMIT then Some(Value(digits)) else None
  }

  function FirstDash(s: string): (i: nat)
    ensures i <= |s| && (forall j :: 0 <= j < i ==> s[j] != '-') && (i < |s| ==> s[i] == '-')
  {
    if s == [] || s[0] == '-' then 0 else FirstDash(s[1..]) + 1
  }

  function IsoToMs(second: Option<int>): int {
    if second.Some? then second.value * 1000 else 0
  }

  function FilenameMs(name: string, second: Option<int>): int {
    var i := FirstDash(name);
    if 0 < i < |name| && ParseInt(name[..i]).Some? then ParseInt(name[..i]).value else IsoToMs(second)
  }

  /** The name a message file gets when it is written. */
  function FileName(ms: nat, sender: string, suffix: string): string {
    Digits(ms) + "-" + sender + "-" + suffix + ".json"
  }

  lemma {:induction false} DigitsValue(n: nat)
    ensures AllDigits(Digits(n)) && Value(Digits(n)) == n
  {
    var last := [('0' as int + n % 10) as char];
    if n < 10 {
      assert last[..0] == [];
    } else {
      DigitsValue(n / 10);
      assert (Digits(n / 10) + last)[..|Digits(n / 10)|] == Digits(n / 10);
    }
  }

  lemma {:induction false} FirstDashAt(s: string, t: string)
    requires forall i :: 0 <= i < |s| ==> s[i] != '-'
    ensures FirstDash(s + "-" + t) == |s|
  {
    assert (s + "-" + t)[|s|] == '-';
    assert forall i :: 0 <= i < |s| ==> (s + "-" + t)[i] == s[i];
  }

  /** The millisecond a file was written in is what its name gives back, and then the
      timestamp plays no part. */
  lemma FilenameRoundTrip(ms: nat, sender: string, suffix: string, second: Option<int>)
    requires ms < INT64_LIMIT
    ensures FilenameMs(FileName(ms, sender, suffix), second) == ms
  {
    DigitsValue(ms);
    var rest := sender + "-" + suffix + ".json";
    assert FileName(ms, sender, suffix) == Digits(ms) + "-" + rest;
    FirstDashAt(Digits(ms), rest);
    assert FileName(ms, sender, suffix)[..|Digits(ms)|] == Digits(ms);
    assert IsDigit(Digits(ms)[0]);
  }

  /** A message stamped in millisecond `sent` and written to a file in millisecond `written`
      has one key in the inbox and another on its lane, and the lane's is the lower: they
      agree exactly when both happened in the first millisecond of one second. */
  lemma KeysAgreeIff(sent: nat, written: nat, sender: string, suffix: string)
    requires sent <= written < INT64_LIMIT
    ensures
      var inInbox := FilenameMs(FileName(written, sender, suffix), Some(sent / 1000));
      var onLane := IsoToMs(Some(sent / 1000));
      && (inInbox == onLane <==> written == sent && sent % 1000 == 0)
      && (inInbox != onLane ==> onLane < inInbox)
  {
    FilenameRoundTrip(written, sender, suffix, Some(sent / 1000));
  }
}
