/** parseState: status and pid picked out of the runtime's JSON by substring search. */
module CrunState {
  import opened Common
  import opened Text

  const MAX_INT: nat := 0x7FFF_FFFF_FFFF_FFFF

  const STATUS_KEY := "\"status\":\""
  const PID_KEY := "\"pid\":"

  /** The first place where a pattern occurs. */
  function FindFirst(s: string, pat: string): (i: Option<nat>)
    ensures i.Some? ==> i.value + |pat| <= |s|
  {
    if pat <= s then Some(0)
    else if s == "" then None
    else
      var rest := FindFirst(s[1..], pat);
      if rest.None? then None else Some(rest.value + 1)
  }

  /** It is a place where the pattern occurs, and there is none before it. */
  lemma {:induction false} FindsFirst(s: string, pat: string)
    ensures var i := FindFirst(s, pat);
            && (i.Some? ==> pat <= s[i.value..])
            && forall k | 0 <= k <= |s| && (i.None? || k < i.value) :: !(pat <= s[k..])
  {
    assert s[0..] == s;
    if !(pat <= s) && s != "" {
      FindsFirst(s[1..], pat);
      assert forall k | 0 < k <= |s| :: s[k..] == s[1..][k - 1..];
    }
  }

  /** The text after the first occurrence. */
  function TextAfter(s: string, pat: string): Option<string> {
    var i := FindFirst(s, pat);
    if i.None? then None else Some(s[i.value + |pat|..])
  }

  /** The longest run of digits a text starts with. */
  function LeadingDigits(s: string): (d: string)
    ensures AllDigits(d) && d <= s
    ensures |d| < |s| ==> !IsDigit(s[|d|])
  {
    if s == "" || !IsDigit(s[0]) then "" else [s[0]] + LeadingDigits(s[1..])
  }

  /** Up to the closing quote; empty if there is none or nothing before it. */
  function StatusOf(out: string): string {
    var rest := TextAfter(out, STATUS_KEY);
    if rest.None? then ""
    else
      var j := IndexOf(rest.value, '"');
      if j.Some? then rest.value[..j.value] else ""
  }

  /** The digits after the key, as a machine integer; 0 if there are none. */
  function PidOf(out: string): nat {
    var rest := TextAfter(out, PID_KEY);
    if rest.None? then 0 else ParseUint(LeadingDigits(rest.value), MAX_INT)
  }

  lemma KeyFoundAt(out: string, pat: string, at: nat)
    requires at <= |out| && pat <= out[at..]
    requires forall k | 0 <= k < at :: !(pat <= out[k..])
    ensures TextAfter(out, pat) == Some(out[at + |pat|..])
  {
    FindsFirst(out, pat);
  }

  lemma KeyMissing(out: string, pat: string)
    requires forall k | 0 <= k <= |out| :: !(pat <= out[k..])
    ensures TextAfter(out, pat) == None
  {
    FindsFirst(out, pat);
  }

  /** Without the status key there is no status, and without the pid key the pid is 0. */
  lemma MissingKeys(out: string)
    ensures (forall k | 0 <= k <= |out| :: !("\"status\":\"" <= out[k..])) ==> StatusOf(out) == ""
    ensures (forall k | 0 <= k <= |out| :: !("\"pid\":" <= out[k..])) ==> PidOf(out) == 0
  {
    if forall k | 0 <= k <= |out| :: !(STATUS_KEY <= out[k..]) {
      KeyMissing(out, STATUS_KEY);
    }
    if forall k | 0 <= k <= |out| :: !(PID_KEY <= out[k..]) {
      KeyMissing(out, PID_KEY);
    }
  }

  /** The status stands between the first key and the next quote; without that quote there is none. */
  lemma StatusInWords(out: string, at: nat, status: string, rest: string)
    requires at <= |out| && "\"status\":\"" <= out[at..]
    requires forall k | 0 <= k < at :: !("\"status\":\"" <= out[k..])
    ensures '"' !in out[at + 10..] ==> StatusOf(out) == ""
    ensures '"' !in status && out[at + 10..] == status + "\"" + rest ==> StatusOf(out) == status
  {
    KeyFoundAt(out, STATUS_KEY, at);
    if '"' !in status && out[at + 10..] == status + "\"" + rest {
      assert status + "\"" + rest == status + ['"'] + rest;
      IndexOfFirst(status, '"', rest);
    }
  }

  /** The pid is the run of digits behind the first key, up to the largest machine integer, and 0 without any. */
  lemma PidInWords(out: string, at: nat, n: nat, rest: string)
    requires at <= |out| && "\"pid\":" <= out[at..]
    requires forall k | 0 <= k < at :: !("\"pid\":" <= out[k..])
    ensures var text := out[at + 6..];
            && (text == "" || text[0] < '0' || '9' < text[0] ==> PidOf(out) == 0)
            && (text == Decimal(n) + rest && (rest == "" || rest[0] < '0' || '9' < rest[0]) ==>
                  PidOf(out) == if n <= 0x7FFF_FFFF_FFFF_FFFF then n else 0x7FFF_FFFF_FFFF_FFFF)
  {
    KeyFoundAt(out, PID_KEY, at);
    var text := out[at + 6..];
    if text == Decimal(n) + rest && (rest == "" || rest[0] < '0' || '9' < rest[0]) {
      assert text[..|Decimal(n)|] == Decimal(n);
      DigitsEndHere(text, |Decimal(n)|);
      ParseOfDecimal(n, MAX_INT);
    }
  }

  method ParseState(out: string) returns (status: string, pid: nat)
    ensures status == StatusOf(out) && pid == PidOf(out)
  {
    status := ParseStatus(out);
    pid := ParsePid(out);
  }

  /** The first half of parseState. */
  method ParseStatus(out: string) returns (status: string)
    ensures status == StatusOf(out)
  {
    status := "";
    var i := FindFirst(out, STATUS_KEY);
    if i.Some? {
      var rest := out[i.value + |STATUS_KEY|..];
      var j := IndexOf(rest, '"');
      if j.Some? && j.value > 0 {
        status := rest[..j.value];
      }
    }
  }

  /** The second half of parseState. */
  method ParsePid(out: string) returns (pid: nat)
    ensures pid == PidOf(out)
  {
    pid := 0;
    var k := FindFirst(out, PID_KEY);
    if k.Some? {
      pid := ScanPid(out[k.value + |PID_KEY|..]);
    }
  }

  /** The scanning loop over the digits. */
  method ScanPid(rest: string) returns (pid: nat)
    ensures pid == ParseUint(LeadingDigits(rest), MAX_INT)
  {
    var end := 0;
    while end < |rest| && IsDigit(rest[end])
      invariant end <= |rest| && AllDigits(rest[..end])
    {
      end := end + 1;
    }
    DigitsEndHere(rest, end);
    if end > 0 {
      pid := ParseUint(rest[..end], MAX_INT);
    } else {
      pid := 0;
    }
  }

  lemma {:induction false} DigitsEndHere(s: string, end: nat)
    requires end <= |s| && AllDigits(s[..end]) && (end < |s| ==> !IsDigit(s[end]))
    ensures LeadingDigits(s) == s[..end]
  {
    var d := LeadingDigits(s);
    assert forall k | 0 <= k < end :: s[..end][k] == s[k];
    assert forall k | 0 <= k < |d| :: d[k] == s[k];
  }

  /** A piece of text, a quote, and what follows. */
  function Quoted(piece: string, rest: string): string {
    piece + "\"" + rest
  }

  lemma QuoteSplitsUniquely(a: string, x: string, b: string, y: string)
    requires '"' !in a && '"' !in b
    ensures Quoted(a, x) <= Quoted(b, y) <==> a == b && x <= y
  {
    var s, t := Quoted(a, x), Quoted(b, y);
    assert s[|a|] == '"' && t[|b|] == '"';
    assert |a| < |b| ==> t[|a|] == b[|a|];
    assert |b| < |a| ==> s[|b|] == a[|b|];
    if s <= t {
      assert s == t[..|s|];
      assert a == s[..|a|] && b == t[..|b|];
      assert x == s[|a| + 1..] && y == t[|b| + 1..];
    }
    if a == b && x <= y {
      assert y == x + y[|x|..];
      assert t == s + y[|x|..];
    }
  }

  /** A pattern that opens with a quote is found at the first quote or after it. */
  lemma {:induction false} SearchFromQuote(a: string, rest: string, tail: string)
    requires '"' !in a
    ensures TextAfter(Quoted(a, rest), "\"" + tail) ==
            if tail <= rest then Some(rest[|tail|..]) else TextAfter(rest, "\"" + tail)
  {
    var s, pat := Quoted(a, rest), "\"" + tail;
    if a == "" {
      assert s == "\"" + rest && s[1..] == rest;
      assert pat <= s <==> tail <= rest by {
        if tail <= rest {
          assert rest == tail + rest[|tail|..];
          assert s == pat + rest[|tail|..];
        }
        if pat <= s {
          assert tail == pat[1..] && rest[..|tail|] == s[..|pat|][1..];
        }
      }
      if tail <= rest {
        assert s[|pat|..] == rest[|tail|..];
      } else {
        ShiftedSearch(s, pat);
      }
    } else {
      assert s[0] == a[0] && s[1..] == Quoted(a[1..], rest);
      assert !(pat <= s) by {
        assert pat[0] == '"';
      }
      ShiftedSearch(s, pat);
      SearchFromQuote(a[1..], rest, tail);
    }
  }

  lemma ShiftedSearch(s: string, pat: string)
    requires s != "" && !(pat <= s)
    ensures TextAfter(s, pat) == TextAfter(s[1..], pat)
  {
    var i := FindFirst(s[1..], pat);
    if i.Some? {
      assert s[i.value + 1 + |pat|..] == s[1..][i.value + |pat|..];
    }
  }

  /** One token further: the key is found here if this token is the key and the right text follows. */
  lemma NextToken(a: string, token: string, more: string, word: string, tail: string)
    requires '"' !in a && '"' !in token && '"' !in word
    ensures TextAfter(Quoted(a, Quoted(token, more)), "\"" + Quoted(word, tail)) ==
            if token == word && tail <= more then Some(more[|tail|..])
            else TextAfter(Quoted(token, more), "\"" + Quoted(word, tail))
  {
    SearchFromQuote(a, Quoted(token, more), Quoted(word, tail));
    QuoteSplitsUniquely(word, tail, token, more);
    if token == word && tail <= more {
      assert Quoted(token, more)[|Quoted(word, tail)|..] == more[|tail|..];
    }
  }

  /** The documented shape of the runtime's answer, up to the quote that ends the status. */
  function StateJson(version: string, id: string, pid: nat, status: string, rest: string): string {
    "{\"ociVersion\":\"" + version + "\",\"id\":\"" + id + "\",\"pid\":" + Decimal(pid)
    + ",\"status\":\"" + status + "\"" + rest
  }

  /** The same text, token by token; the first function stops in front of the pid key. */
  function FromStatus(status: string, rest: string): string {
    Quoted("status", Quoted(":", Quoted(status, rest)))
  }

  function FromPid(pid: nat, status: string, rest: string): string {
    Quoted("pid", Quoted(":" + Decimal(pid) + ",", FromStatus(status, rest)))
  }

  function Tokens(version: string, id: string, tail: string): string {
    Quoted("{", Quoted("ociVersion", Quoted(":", Quoted(version, Quoted(",",
      Quoted("id", Quoted(":", Quoted(id, Quoted(",", tail)))))))))
  }

  lemma FirstTokens(tail: string)
    ensures Quoted("{", Quoted("ociVersion", Quoted(":", tail))) == "{\"ociVersion\":\"" + tail
  {
    assert Quoted("{", Quoted("ociVersion", Quoted(":", tail))) == "{\"" + ("ociVersion" + ("\"" + (":\"" + tail)));
  }

  lemma MiddleTokens(version: string, tail: string)
    ensures Quoted(version, Quoted(",", Quoted("id", Quoted(":", tail)))) == version + "\",\"id\":\"" + tail
  {
    assert Quoted("id", Quoted(":", tail)) == "id\":\"" + tail;
    assert Quoted(version, Quoted(",", Quoted("id", Quoted(":", tail)))) == version + ("\",\"" + ("id\":\"" + tail));
  }

  lemma TokensAsText(version: string, id: string, tail: string)
    ensures Tokens(version, id, tail) == "{\"ociVersion\":\"" + version + "\",\"id\":\"" + id + "\",\"" + tail
  {
    var last := Quoted(id, Quoted(",", tail));
    assert last == id + ("\",\"" + tail);
    FirstTokens(Quoted(version, Quoted(",", Quoted("id", Quoted(":", last)))));
    MiddleTokens(version, last);
  }

  lemma PidAsText(pid: nat, status: string, rest: string)
    ensures FromPid(pid, status, rest) == "pid\":" + Decimal(pid) + ",\"status\":\"" + status + "\"" + rest
  {
    assert FromStatus(status, rest) == "status\":\"" + (status + "\"" + rest);
    assert FromPid(pid, status, rest) == "pid\":" + Decimal(pid) + ",\"" + FromStatus(status, rest);
  }

  lemma JsonIsTokens(version: string, id: string, pid: nat, status: string, rest: string)
    ensures StateJson(version, id, pid, status, rest) == Tokens(version, id, FromPid(pid, status, rest))
  {
    TokensAsText(version, id, FromPid(pid, status, rest));
    PidAsText(pid, status, rest);
    assert "\",\"pid\":" == "\",\"" + "pid\":";
  }

  /** In front of the pid no token is taken for a key, whatever version and id say: a value is followed
      by a comma, never by a colon. */
  lemma KeysComeAfterId(version: string, id: string, first: string, more: string, word: string, tail: string)
    requires '"' !in version && '"' !in id && '"' !in first && '"' !in word
    requires word in {"pid", "status"} && tail != "" && tail[0] == ':'
    ensures TextAfter(Tokens(version, id, Quoted(first, more)), "\"" + Quoted(word, tail)) ==
            if first == word && tail <= more then Some(more[|tail|..])
            else TextAfter(Quoted(first, more), "\"" + Quoted(word, tail))
  {
    var t8 := Quoted(",", Quoted(first, more));
    var t7 := Quoted(id, t8);
    var t6 := Quoted(":", t7);
    var t5 := Quoted("id", t6);
    var t4 := Quoted(",", t5);
    var t3 := Quoted(version, t4);
    var t2 := Quoted(":", t3);
    assert t4[0] == ',' && t8[0] == ',';
    NextToken("{", "ociVersion", t2, word, tail);
    NextToken("ociVersion", ":", t3, word, tail);
    NextToken(":", version, t4, word, tail);
    NextToken(version, ",", t5, word, tail);
    NextToken(",", "id", t6, word, tail);
    NextToken("id", ":", t7, word, tail);
    NextToken(":", id, t8, word, tail);
    NextToken(id, ",", Quoted(first, more), word, tail);
    NextToken(",", first, more, word, tail);
  }

  /** Where the status key is found, and with what behind it. */
  lemma StatusKeyFound(version: string, id: string, pid: nat, status: string, rest: string)
    requires '"' !in version && '"' !in id
    ensures TextAfter(StateJson(version, id, pid, status, rest), STATUS_KEY) == Some(Quoted(status, rest))
  {
    var number := ":" + Decimal(pid) + ",";
    var value := Quoted(":", Quoted(status, rest));
    var tail := ":\"";
    assert STATUS_KEY == "\"" + Quoted("status", tail);
    JsonIsTokens(version, id, pid, status, rest);
    assert '"' !in number;
    KeysComeAfterId(version, id, "pid", Quoted(number, FromStatus(status, rest)), "status", tail);
    NextToken("pid", number, FromStatus(status, rest), "status", tail);
    NextToken(number, "status", value, "status", tail);
    assert value == tail + Quoted(status, rest);
    assert value[|tail|..] == Quoted(status, rest);
  }

  lemma StatusFound(version: string, id: string, pid: nat, status: string, rest: string)
    requires '"' !in version && '"' !in id && '"' !in status
    ensures StatusOf(StateJson(version, id, pid, status, rest)) == status
  {
    StatusKeyFound(version, id, pid, status, rest);
    var after := Quoted(status, rest);
    assert after == status + ['"'] + rest;
    IndexOfFirst(status, '"', rest);
    assert after[..|status|] == status;
  }

  lemma NumberAsText(digits: string, tail: string)
    ensures var more := Quoted(":" + digits + ",", tail);
            ":" <= more && more[|":"|..] == digits + ("," + "\"" + tail)
  {
    assert Quoted(":" + digits + ",", tail) == ":" + (digits + ("," + "\"" + tail));
  }

  lemma PidKeyFound(version: string, id: string, pid: nat, status: string, rest: string)
    requires '"' !in version && '"' !in id
    ensures TextAfter(StateJson(version, id, pid, status, rest), PID_KEY)
            == Some(Decimal(pid) + ("," + "\"" + FromStatus(status, rest)))
  {
    var tail := FromStatus(status, rest);
    assert PID_KEY == "\"" + Quoted("pid", ":");
    JsonIsTokens(version, id, pid, status, rest);
    NumberAsText(Decimal(pid), tail);
    KeysComeAfterId(version, id, "pid", Quoted(":" + Decimal(pid) + ",", tail), "pid", ":");
  }

  lemma PidFound(version: string, id: string, pid: nat, status: string, rest: string)
    requires '"' !in version && '"' !in id
    ensures PidOf(StateJson(version, id, pid, status, rest)) == if pid <= MAX_INT then pid else MAX_INT
  {
    PidKeyFound(version, id, pid, status, rest);
    var digits := Decimal(pid);
    var after := digits + ("," + "\"" + FromStatus(status, rest));
    assert after[..|digits|] == digits && after[|digits|] == ',';
    DigitsEndHere(after, |digits|);
    ParseOfDecimal(pid, MAX_INT);
  }

  /** On the documented shape, with no quote inside the values, the search hits the real keys: status
      and pid come back as they were written, the pid up to the largest machine integer. */
  lemma ParsesDocumentedShape(version: string, id: string, pid: nat, status: string, rest: string)
    requires '"' !in version && '"' !in id && '"' !in status
    ensures var out := "{\"ociVersion\":\"" + version + "\",\"id\":\"" + id + "\",\"pid\":" + Decimal(pid)
                       + ",\"status\":\"" + status + "\"" + rest;
            && StatusOf(out) == status
            && PidOf(out) == if pid <= 0x7FFF_FFFF_FFFF_FFFF then pid else 0x7FFF_FFFF_FFFF_FFFF
  {
    StatusFound(version, id, pid, status, rest);
    PidFound(version, id, pid, status, rest);
  }
}
