/** Reading a client command "<prog> <verb> [N q dump]": the program
    named by its first word, the status named by its second, and up to
    three integers, as strncmp and sscanf(cmd, "%*s %s %d %d %d") see them. */
module CamCommand {
  import opened Common

  /** CamProgram: nothing loaded, stream to disk, or averaging. */
  datatype Program = NoProgram | Stream | Avging

  /** CamProgramStatus and CamProgramDesiredStatus. */
  datatype Status = Closed | Opened | Running | Stopped | GentleStop

  /** strncmp(p, s, |p|) == 0 for a string s holding no NUL. */
  predicate StartsWith(s: string, p: string) {
    |p| <= |s| && s[..|p|] == p
  }

  /** The program named by the first six characters. */
  function DesiredProgram(cmd: string): (p: Program)
    ensures p == Stream <==> StartsWith(cmd, "stream")
    ensures p == Avging <==> StartsWith(cmd, "avging")
    ensures p == NoProgram <==> !StartsWith(cmd, "stream") && !StartsWith(cmd, "avging")
  {
    if StartsWith(cmd, "avging") then Avging
    else if StartsWith(cmd, "stream") then Stream
    else NoProgram
  }

  /** isspace in the C locale. */
  predicate IsSpace(c: char) {
    c == ' ' || '\t' <= c <= '\r'
  }

  /** The first position at or after i that is not white space. */
  function SkipSpaces(s: string, i: nat): (r: nat)
    requires i <= |s|
    ensures i <= r <= |s| && (r < |s| ==> !IsSpace(s[r]))
    ensures forall k :: i <= k < r ==> IsSpace(s[k])
    decreases |s| - i
  {
    if i < |s| && IsSpace(s[i]) then SkipSpaces(s, i + 1) else i
  }

  /** The first position at or after i that is white space: the end of a %s token. */
  function TokenEnd(s: string, i: nat): (r: nat)
    requires i <= |s|
    ensures i <= r <= |s| && (r < |s| ==> IsSpace(s[r]))
    ensures forall k :: i <= k < r ==> !IsSpace(s[k])
    decreases |s| - i
  {
    if i < |s| && !IsSpace(s[i]) then TokenEnd(s, i + 1) else i
  }

  /** The first position at or after i that is not a digit. */
  function DigitsEnd(s: string, i: nat): (r: nat)
    requires i <= |s|
    ensures i <= r <= |s| && (r < |s| ==> !IsDigit(s[r]))
    ensures forall k :: i <= k < r ==> IsDigit(s[k])
    decreases |s| - i
  {
    if i < |s| && IsDigit(s[i]) then DigitsEnd(s, i + 1) else i
  }

  /** A run of digit positions is a slice of digits. */
  lemma DigitsSlice(s: string, k: nat, e: nat)
    requires k <= e <= |s| && forall m :: k <= m < e ==> IsDigit(s[m])
    ensures forall m :: 0 <= m < e - k ==> IsDigit(s[k..e][m])
  {
    forall m | 0 <= m < e - k
      ensures IsDigit(s[k..e][m])
    {
      assert s[k..e][m] == s[k + m];
    }
  }

  /** One %d conversion from position i: white space, an optional sign and
      at least one digit; the value read and the position after it. */
  function ScanInt(s: string, i: nat): (r: Option<(int, nat)>)
    requires i <= |s|
    ensures r.Some? ==> i < r.value.1 <= |s|
  {
    var j := SkipSpaces(s, i);
    var k := if j < |s| && (s[j] == '+' || s[j] == '-') then j + 1 else j;
    var e := DigitsEnd(s, k);
    DigitsSlice(s, k, e);
    if e == k then None
    else
      var v: int := if k > j && s[j] == '-' then -(DigitsValue(s[k..e]) as int) else DigitsValue(s[k..e]);
      Some((v, e))
  }

  /** Up to n successive %d conversions from position i, stopping at the first failure. */
  function ScanInts(s: string, i: nat, n: nat): (r: seq<int>)
    requires i <= |s|
    ensures |r| <= n
    decreases n
  {
    if n == 0 then []
    else match ScanInt(s, i)
      case None => []
      case Some((v, e)) => [v] + ScanInts(s, e, n - 1)
  }

  /** What sscanf(cmd, "%*s %s %d %d %d", ...) delivers: the number of
      items assigned, the second word and the integers read. */
  datatype Scanned = Scanned(count: nat, verb: string, ints: seq<int>)

  function Scan(cmd: string): (r: Scanned)
    ensures r.count <= 4 && (r.count == 0 <==> r.verb == []) && |r.ints| == if r.count == 0 then 0 else r.count - 1
    ensures forall k :: 0 <= k < |r.verb| ==> !IsSpace(r.verb[k])
  {
    var a := SkipSpaces(cmd, 0);
    var b := TokenEnd(cmd, a);
    var c := SkipSpaces(cmd, b);
    if c == |cmd| then Scanned(0, [], [])
    else
      var d := TokenEnd(cmd, c);
      var ints := ScanInts(cmd, d, 3);
      Scanned(1 + |ints|, cmd[c..d], ints)
  }

  /** The status asked for by the verb; CLOSED when no verb was read. */
  function DesiredStatus(sc: Scanned): (st: Status)
    ensures st == Running <==> sc.count >= 1 && StartsWith(sc.verb, "start")
    ensures st == Stopped <==> sc.count >= 1 && !StartsWith(sc.verb, "start") && StartsWith(sc.verb, "stop")
    ensures st == GentleStop <==> sc.count >= 1 && !StartsWith(sc.verb, "start") && StartsWith(sc.verb, "gent")
    ensures st == Closed <==>
      (sc.count < 1 || (!StartsWith(sc.verb, "start") && !StartsWith(sc.verb, "stop") && !StartsWith(sc.verb, "gent")))
    ensures st != Opened
  {
    if sc.count < 1 then Closed
    else if StartsWith(sc.verb, "start") then Running
    else if StartsWith(sc.verb, "gent") then GentleStop
    else if StartsWith(sc.verb, "stop") then Stopped
    else Closed
  }

  /** What one command asks for: the desired program and status, the
      number of items sscanf assigned and the integers among them. */
  datatype Request = Request(program: Program, status: Status, count: nat, ints: seq<int>)

  function ReadRequest(cmd: string): (r: Request)
    ensures r.count <= 4 && |r.ints| == (if r.count == 0 then 0 else r.count - 1)
    ensures r.count == 0 ==> r.status == Closed
    ensures r.status != Opened
  {
    var sc := Scan(cmd);
    Request(DesiredProgram(cmd), DesiredStatus(sc), sc.count, sc.ints)
  }

  /** A run of characters none of which is white space. */
  predicate IsWord(w: string) {
    w != [] && forall k :: 0 <= k < |w| ==> !IsSpace(w[k])
  }

  lemma {:induction false} TokenEndAt(s: string, i: nat, j: nat)
    requires i <= j <= |s| && (j < |s| ==> IsSpace(s[j]))
    requires forall k :: i <= k < j ==> !IsSpace(s[k])
    ensures TokenEnd(s, i) == j
    decreases j - i
  {
    if i < j {
      TokenEndAt(s, i + 1, j);
    }
  }

  lemma {:induction false} SkipSpacesAt(s: string, i: nat, j: nat)
    requires i <= j <= |s| && (j < |s| ==> !IsSpace(s[j]))
    requires forall k :: i <= k < j ==> IsSpace(s[k])
    ensures SkipSpaces(s, i) == j
    decreases j - i
  {
    if i < j {
      SkipSpacesAt(s, i + 1, j);
    }
  }

  lemma {:induction false} DigitsEndAt(s: string, i: nat, j: nat)
    requires i <= j <= |s| && (j < |s| ==> !IsDigit(s[j]))
    requires forall k :: i <= k < j ==> IsDigit(s[k])
    ensures DigitsEnd(s, i) == j
    decreases j - i
  {
    if i < j {
      DigitsEndAt(s, i + 1, j);
    }
  }

  /** %d on white space followed by a run of digits reads the value of
      those digits, negated after a minus sign, and stops after the last one. */
  lemma ScanIntAt(s: string, i: nat, k: nat, e: nat)
    requires i <= k < e <= |s|
    requires forall m :: i <= m < k ==> IsSpace(s[m])
    requires var d := if s[k] == '-' then k + 1 else k;
      d < e && forall m :: 0 <= m < e - d ==> IsDigit(s[d..e][m])
    requires e < |s| ==> !IsDigit(s[e])
    ensures ScanInt(s, i) == Some((if s[k] == '-' then -(DigitsValue(s[k + 1..e]) as int) else DigitsValue(s[k..e]), e))
  {
    var d := if s[k] == '-' then k + 1 else k;
    forall m | d <= m < e
      ensures IsDigit(s[m])
    {
      assert s[d..e][m - d] == s[m];
    }
    assert s[k] == '-' || IsDigit(s[k]);
    SkipSpacesAt(s, i, k);
    DigitsEndAt(s, d, e);
  }

  /** What printf's %d writes for n. */
  function DecimalText(n: int): (r: string)
    ensures |r| >= 1
  {
    if n < 0 then ['-'] + Decimal(-n) else Decimal(n)
  }

  /** %d reads back what printf's %d wrote: after white space, the text of
      n followed by anything that is not a digit scans as n and ends where
      the text ends. */
  lemma ScanDecimal(n: int, pre: string, rest: string)
    requires forall m :: 0 <= m < |pre| ==> IsSpace(pre[m])
    requires rest == [] || !IsDigit(rest[0])
    ensures ScanInt(pre + DecimalText(n) + rest, 0) == Some((n, |pre| + |DecimalText(n)|))
  {
    var t := DecimalText(n);
    var s := pre + t + rest;
    var k, e := |pre|, |pre| + |t|;
    var dec := if n < 0 then -n else n;
    var d := if n < 0 then k + 1 else k;
    DecimalRoundTrip(dec);
    assert s[..k] == pre && s[k..e] == t && s[e..] == rest;
    assert s[d..e] == Decimal(dec);
    forall m | 0 <= m < k
      ensures IsSpace(s[m])
    {
      assert s[m] == s[..k][m];
    }
    if e < |s| {
      assert s[e] == s[e..][0];
    }
    assert s[k] == t[0];
    ScanValueAt(s, k, e, d, dec);
    if n < 0 {
      assert s[k] == '-';
    }
  }

  /** ScanIntAt with the digits known to be those of dec. */
  lemma ScanValueAt(s: string, k: nat, e: nat, d: nat, dec: nat)
    requires k <= d < e <= |s| && d == (if s[k] == '-' then k + 1 else k)
    requires forall m :: 0 <= m < k ==> IsSpace(s[m])
    requires s[d..e] == Decimal(dec)
    requires forall m :: 0 <= m < |Decimal(dec)| ==> IsDigit(Decimal(dec)[m])
    requires DigitsValue(Decimal(dec)) == dec
    requires e < |s| ==> !IsDigit(s[e])
    ensures ScanInt(s, 0) == Some((if s[k] == '-' then -(dec as int) else dec, e))
  {
    ScanIntAt(s, 0, k, e);
  }

  /** Two words separated by one space: sscanf assigns the second word
      and nothing else. */
  lemma ScanTwoWords(w1: string, w2: string)
    requires IsWord(w1) && IsWord(w2)
    ensures Scan(w1 + " " + w2) == Scanned(1, w2, [])
  {
    var s := w1 + " " + w2;
    var n := |w1|;
    assert forall k :: 0 <= k < n ==> s[k] == w1[k];
    assert forall k :: n + 1 <= k < |s| ==> s[k] == w2[k - n - 1];
    SkipSpacesAt(s, 0, 0);
    TokenEndAt(s, 0, n);
    SkipSpacesAt(s, n, n + 1);
    TokenEndAt(s, n + 1, |s|);
    assert s[n + 1..] == w2;
  }

  /** A first word naming no program and a second beginning with "start":
      the request is for RUNNING with no program, and nothing else was read. */
  lemma ReadStartAlone(w1: string, w2: string)
    requires IsWord(w1) && IsWord(w2) && !StartsWith(w1, "stream") && !StartsWith(w1, "avging")
    requires StartsWith(w2, "start")
    ensures ReadRequest(w1 + " " + w2) == Request(NoProgram, Running, 1, [])
  {
    ScanTwoWords(w1, w2);
    NotPrefixPastWord(w1, w2, "stream");
    NotPrefixPastWord(w1, w2, "avging");
  }

  /** A word followed by a space starts with an unspaced p only if the word does. */
  lemma NotPrefixPastWord(w: string, rest: string, p: string)
    requires IsWord(p) && !StartsWith(w, p)
    ensures !StartsWith(w + " " + rest, p)
  {
    var s := w + " " + rest;
    assert |p| <= |w| ==> s[..|p|] == w[..|p|];
    assert |w| < |s| && s[|w|] == ' ';
  }
}
