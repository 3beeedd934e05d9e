/** Agent ids and the durable nick behind a session id (dispatch_fs.py, tui/relay/relay.go).
    Names are ASCII without line breaks, as directory names under the relay are. */
module Ids {

  predicate IsDigit(c: char) { '0' <= c <= '9' }

  predicate IsAlnum(c: char) { 'a' <= c <= 'z' || IsDigit(c) }

  /** `ID_RE`: one safe path segment. */
  predicate ValidId(s: string) {
    && 1 <= |s| <= 64
    && IsAlnum(s[0])
    && forall i :: 0 <= i < |s| ==> IsAlnum(s[i]) || s[i] == '_' || s[i] == '-'
  }

  /** `s` is `base`, a dash and a process id: the regular expression `^<base>-\d+$`. */
  predicate IsSessionOf(base: string, s: string) {
    && |s| > |base| + 1
    && s[..|base|] == base
    && s[|base|] == '-'
    && (forall i :: |base| < i < |s| ==> IsDigit(s[i]))
  }

  /** Length of the longest all-digit tail. */
  function DigitTail(s: string): (n: nat)
    ensures n <= |s|
    ensures forall i :: |s| - n <= i < |s| ==> IsDigit(s[i])
    ensures n < |s| ==> !IsDigit(s[|s| - n - 1])
  {
    if s == [] || !IsDigit(s[|s| - 1]) then 0 else DigitTail(s[..|s| - 1]) + 1
  }

  /** `durable_nick`: the pattern `^(?P<nick>.+)-\d+$`, read from the right. */
  function DurableNick(s: string): string {
    var n := DigitTail(s);
    var dash := |s| - n - 1;
    if 0 < n && 0 < dash && s[dash] == '-' then s[..dash] else s
  }

  /** A session id belongs to exactly the nick in front of its process id, so the
      supervisor's test (`durable_nick(d) == nick`) and the server's sibling pattern
      accept the same directories. */
  lemma SessionIffDurable(base: string, s: string)
    requires base != []
    ensures IsSessionOf(base, s) <==> DurableNick(s) == base && s != base
  {
    var n := DigitTail(s);
    if IsSessionOf(base, s) {
      assert |s| - n - 1 == |base|;
    }
  }

  /** The nick of a valid id is a valid id. */
  lemma DurableNickValid(s: string)
    requires ValidId(s)
    ensures ValidId(DurableNick(s))
  {
  }
}
