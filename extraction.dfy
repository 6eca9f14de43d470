/**
 * Pulling an email and an order id out of the user's message, and letting a
 * declared value win over the extracted one.
 *
 * Each regular expression is modelled by a greedy scanner that does what the
 * backtracking engine does for that pattern, and is proved to return the
 * leftmost match and, at that start, the longest one, against a declarative
 * statement of what the pattern matches.
 */
module Extraction {
  import opened Wrappers
  import opened Text
  import opened Shop

  /** The character classes the two patterns are built from. */
  datatype CharClass = Whitespace | Digit | Word | EmailChar

  /** `\s`, `\d`, `\w` and `[\w\.-]`. */
  predicate In(c: char, cls: CharClass) {
    match cls
    case Whitespace => IsSpace(c)
    case Digit => IsDigit(c)
    case Word => IsWordChar(c)
    case EmailChar => IsEmailChar(c)
  }

  /** s[lo..hi] is a slice of s all of whose characters are in the class. */
  ghost predicate AllIn(s: string, lo: int, hi: int, cls: CharClass) {
    0 <= lo <= hi <= |s| && forall k :: lo <= k < hi ==> In(s[k], cls)
  }

  /** A greedy repetition `p*` starting at k: the end of the longest run of
      characters satisfying p. */
  function Skip(s: string, k: nat, cls: CharClass): (e: nat)
    requires k <= |s|
    ensures k <= e <= |s|
    ensures AllIn(s, k, e, cls)
    ensures e == |s| || !In(s[e], cls)
    decreases |s| - k
  {
    if k < |s| && In(s[k], cls) then Skip(s, k + 1, cls) else k
  }

  /** Any run of p-characters from k ends no later than the greedy one. */
  lemma SkipIsLongest(s: string, k: nat, x: int, cls: CharClass)
    requires k <= |s| && AllIn(s, k, x, cls)
    ensures x <= Skip(s, k, cls)
  {
  }

  // ---------------------------------------------------------------------------
  // Order id: SL\s*\d+ , case-insensitive
  // ---------------------------------------------------------------------------

  predicate IsS(c: char) { c == 'S' || c == 's' }
  predicate IsL(c: char) { c == 'L' || c == 'l' }

  /** s[i..j] matches `SL\s*\d+` ignoring case: the two prefix letters, then
      whitespace, then at least one digit. */
  ghost predicate OrderIdMatch(s: string, i: int, j: int) {
    && 0 <= i && i + 2 < j <= |s|
    && IsS(s[i]) && IsL(s[i + 1])
    && exists m :: i + 2 <= m < j && AllIn(s, i + 2, m, Whitespace) && AllIn(s, m, j, Digit)
  }

  /** The end of the order-id match starting at i, if there is one. */
  function OrderIdEndAt(s: string, i: nat): Option<nat>
    requires i <= |s|
  {
    if i + 2 <= |s| && IsS(s[i]) && IsL(s[i + 1]) then
      var m := Skip(s, i + 2, Whitespace);
      var e := Skip(s, m, Digit);
      if m < e then Some(e) else None
    else None
  }

  /** The scanner at i finds a match exactly when the pattern matches at i,
      and then the longest one. */
  lemma OrderIdEndAtCorrect(s: string, i: nat)
    requires i <= |s|
    ensures OrderIdEndAt(s, i).Some? ==> OrderIdMatch(s, i, OrderIdEndAt(s, i).value)
    ensures OrderIdEndAt(s, i).Some? ==> forall j :: OrderIdMatch(s, i, j) ==> j <= OrderIdEndAt(s, i).value
    ensures OrderIdEndAt(s, i).None? ==> forall j :: !OrderIdMatch(s, i, j)
  {
    forall j | OrderIdMatch(s, i, j)
      ensures OrderIdEndAt(s, i).Some? && j <= OrderIdEndAt(s, i).value
    {
      var m0 :| i + 2 <= m0 < j && AllIn(s, i + 2, m0, Whitespace) && AllIn(s, m0, j, Digit);
      var m := Skip(s, i + 2, Whitespace);
      SkipIsLongest(s, i + 2, m0, Whitespace);
      assert !IsSpace(s[m0]);
      assert m == m0;
      SkipIsLongest(s, m, j, Digit);
    }
    if OrderIdEndAt(s, i).Some? {
      var m := Skip(s, i + 2, Whitespace);
      assert AllIn(s, m, OrderIdEndAt(s, i).value, Digit);
    }
  }

  /** At most one match is both leftmost and longest. */
  lemma OrderIdLeftmostLongestUnique(s: string, i: nat, e: nat)
    requires OrderIdMatch(s, i, e)
    requires forall i', j :: 0 <= i' < i ==> !OrderIdMatch(s, i', j)
    requires forall j :: OrderIdMatch(s, i, j) ==> j <= e
    ensures forall i2, e2 ::
              (OrderIdMatch(s, i2, e2)
               && (forall i', j :: 0 <= i' < i2 ==> !OrderIdMatch(s, i', j))
               && (forall j :: OrderIdMatch(s, i2, j) ==> j <= e2))
              ==> i2 == i && e2 == e
  {
  }

  /** The leftmost order-id match at or after `from`, as (start, end). */
  function FindOrderIdFrom(s: string, from: nat): (r: Option<(nat, nat)>)
    requires from <= |s|
    ensures r.Some? ==> from <= r.value.0 && OrderIdMatch(s, r.value.0, r.value.1)
    ensures r.Some? ==> forall i, j :: from <= i < r.value.0 ==> !OrderIdMatch(s, i, j)
    ensures r.Some? ==> forall j :: OrderIdMatch(s, r.value.0, j) ==> j <= r.value.1
    ensures r.None? ==> forall i, j :: from <= i ==> !OrderIdMatch(s, i, j)
    decreases |s| - from
  {
    OrderIdEndAtCorrect(s, from);
    match OrderIdEndAt(s, from)
    case Some(e) => Some((from, e))
    case None =>
      if from < |s| then FindOrderIdFrom(s, from + 1)
      else
        assert forall i, j :: from <= i ==> !OrderIdMatch(s, i, j);
        None
  }

  /** `re.search(r'(SL\s*\d+)', msg, re.IGNORECASE)`, then `.upper()` and the
      removal of space characters: nothing iff the pattern matches nowhere,
      otherwise the cleaned text of the leftmost match, longest at its start. */
  function ExtractOrderId(msg: string): (r: Option<string>)
    ensures r.None? <==> forall i, j :: !OrderIdMatch(msg, i, j)
    ensures forall i, e ::
              (OrderIdMatch(msg, i, e)
               && (forall i', j :: 0 <= i' < i ==> !OrderIdMatch(msg, i', j))
               && (forall j :: OrderIdMatch(msg, i, j) ==> j <= e))
              ==> r == Some(RemoveSpaces(Upper(msg[i..e])))
  {
    match FindOrderIdFrom(msg, 0)
    case Some((i, e)) =>
      OrderIdLeftmostLongestUnique(msg, i, e);
      Some(RemoveSpaces(Upper(msg[i..e])))
    case None => None
  }

  /** Upper-casing a match gives "SL" followed by whitespace and digits, ending in a digit. */
  lemma UpperOfOrderIdMatch(s: string, i: nat, e: nat)
    requires OrderIdMatch(s, i, e)
    ensures var u := Upper(s[i..e]);
      && u[..2] == "SL" && IsDigit(u[|u| - 1])
      && forall k :: 2 <= k < |u| ==> IsSpace(u[k]) || IsDigit(u[k])
  {
    var u := Upper(s[i..e]);
    var m :| i + 2 <= m < e && AllIn(s, i + 2, m, Whitespace) && AllIn(s, m, e, Digit);
    assert u[0] == UpperChar(s[i]) && u[1] == UpperChar(s[i + 1]);
    assert u[..2] == [u[0], u[1]];
    assert u[|u| - 1] == UpperChar(s[e - 1]);
    forall k | 2 <= k < |u| ensures IsSpace(u[k]) || IsDigit(u[k]) {
      assert u[k] == UpperChar(s[i + k]);
    }
  }

  /** Removing the spaces from "SL" followed by whitespace and digits, ending in
      a digit, leaves "SL" in front, at least one more character, no space and
      no small letter. */
  lemma CleanedIdShape(u: string)
    requires |u| >= 3 && u[..2] == "SL" && IsDigit(u[|u| - 1])
    requires forall k :: 2 <= k < |u| ==> IsSpace(u[k]) || IsDigit(u[k])
    ensures var id := RemoveSpaces(u);
      && |id| >= 3 && id[..2] == "SL" && ' ' !in id
      && forall k :: 0 <= k < |id| ==> !IsAsciiLower(id[k])
  {
    assert u == u[..2] + u[2..];
    RemoveSpacesConcat(u[..2], u[2..]);
    assert RemoveSpaces(u[..2]) == "SL";
    RemoveSpacesKeepsOthers(u[2..], |u| - 3);
    RemoveSpacesKeepsNoLower(u);
  }

  /** An extracted order id starts with "SL", is at least three characters
      long, has no space and no small letter. */
  lemma ExtractedOrderIdShape(msg: string)
    ensures var id := ExtractOrderId(msg);
      id.Some? ==>
        && |id.value| >= 3 && id.value[..2] == "SL" && ' ' !in id.value
        && forall k :: 0 <= k < |id.value| ==> !IsAsciiLower(id.value[k])
  {
    match FindOrderIdFrom(msg, 0)
    case Some((i, e)) =>
      UpperOfOrderIdMatch(msg, i, e);
      CleanedIdShape(Upper(msg[i..e]));
    case None =>
  }

  /** Since an extracted id has no spaces left, the gateway's own space removal
      leaves it unchanged. */
  lemma ExtractedOrderIdIsClean(msg: string)
    ensures ExtractOrderId(msg).Some? ==> RemoveSpaces(ExtractOrderId(msg).value) == ExtractOrderId(msg).value
  {
  }

  // ---------------------------------------------------------------------------
  // Email: [\w\.-]+@[\w\.-]+\.\w+
  // ---------------------------------------------------------------------------

  /** The class `[\w\.-]`. */
  predicate IsEmailChar(c: char) { IsWordChar(c) || c == '.' || c == '-' }

  /** s[p..j] matches `[\w\.-]+\.\w+`. */
  ghost predicate DomainMatch(s: string, p: int, j: int) {
    exists b :: 0 <= p < b && b + 1 < j <= |s| && AllIn(s, p, b, EmailChar) && s[b] == '.' && AllIn(s, b + 1, j, Word)
  }

  /** s[i..j] matches `[\w\.-]+@[\w\.-]+\.\w+`. */
  ghost predicate EmailMatch(s: string, i: int, j: int) {
    exists a :: 0 <= i < a < j <= |s| && AllIn(s, i, a, EmailChar) && s[a] == '@' && DomainMatch(s, a + 1, j)
  }

  /** A dot at d followed by a word character: where `\.\w+` can begin. */
  predicate DotBeforeWord(s: string, d: int) {
    0 <= d && d + 1 < |s| && s[d] == '.' && IsWordChar(s[d + 1])
  }

  /** Backtracking of the greedy `[\w\.-]+` of the domain: the last position in
      (p, b] where `\.\w+` can begin. */
  function BacktrackToDot(s: string, p: nat, b: nat): (d: Option<nat>)
    requires p < b <= |s|
    ensures d.Some? ==> p < d.value <= b && DotBeforeWord(s, d.value)
    ensures d.Some? ==> forall x :: d.value < x <= b ==> !DotBeforeWord(s, x)
    ensures d.None? ==> forall x :: p < x <= b ==> !DotBeforeWord(s, x)
    decreases b
  {
    if DotBeforeWord(s, b) then Some(b)
    else if b - 1 > p then BacktrackToDot(s, p, b - 1)
    else None
  }

  /** The end of the domain match starting at p, if there is one. */
  function DomainEndAt(s: string, p: nat): Option<nat>
    requires p <= |s|
  {
    var r := Skip(s, p, EmailChar);
    if p < r then
      match BacktrackToDot(s, p, r)
      case Some(d) => Some(Skip(s, d + 1, Word))
      case None => None
    else None
  }

  /** What the domain scanner returns is a domain match. */
  lemma DomainEndAtSound(s: string, p: nat)
    requires p <= |s|
    ensures DomainEndAt(s, p).Some? ==> DomainMatch(s, p, DomainEndAt(s, p).value)
  {
    var r := Skip(s, p, EmailChar);
    if DomainEndAt(s, p).Some? {
      var d := BacktrackToDot(s, p, r).value;
      assert IsEmailChar(s[d]);
      assert d < r;
      var e := Skip(s, d + 1, Word);
      assert AllIn(s, p, d, EmailChar);
      assert DomainMatch(s, p, e);
    }
  }

  /** Every domain match at p is found, and ends no later than the scanner's. */
  lemma DomainEndAtComplete(s: string, p: nat, j: int)
    requires p <= |s| && DomainMatch(s, p, j)
    ensures DomainEndAt(s, p).Some? && j <= DomainEndAt(s, p).value
  {
    var r := Skip(s, p, EmailChar);
    var b :| 0 <= p < b && b + 1 < j <= |s| && AllIn(s, p, b, EmailChar) && s[b] == '.' && AllIn(s, b + 1, j, Word);
    assert DotBeforeWord(s, b);
    SkipIsLongest(s, p, b, EmailChar);
    assert IsEmailChar(s[b]);
    assert b < r;
    var d := BacktrackToDot(s, p, r).value;
    assert b <= d;
    assert DomainEndAt(s, p) == Some(Skip(s, d + 1, Word));
    if d == b {
      SkipIsLongest(s, b + 1, j, Word);
    } else {
      assert !IsWordChar(s[d]);
      assert j <= d;
    }
  }

  /** The end of the email match starting at i, if there is one. */
  function EmailEndAt(s: string, i: nat): Option<nat>
    requires i <= |s|
  {
    var a := Skip(s, i, EmailChar);
    if i < a < |s| && s[a] == '@' then DomainEndAt(s, a + 1) else None
  }

  /** When the greedy local part stops at an '@', the email ends where the
      domain scanned after it ends. */
  lemma EmailEndAtSign(s: string, i: nat)
    requires i <= |s|
    ensures var a := Skip(s, i, EmailChar);
      i < a < |s| && s[a] == '@' ==> EmailEndAt(s, i) == DomainEndAt(s, a + 1)
  {
  }

  /** Every email match at i has its '@' where the greedy local part stops. */
  lemma EmailMatchAtSign(s: string, i: nat, j: int)
    requires i <= |s| && EmailMatch(s, i, j)
    ensures var a := Skip(s, i, EmailChar);
      i < a < |s| && s[a] == '@' && DomainMatch(s, a + 1, j)
  {
    var a0 :| 0 <= i < a0 < j <= |s| && AllIn(s, i, a0, EmailChar) && s[a0] == '@' && DomainMatch(s, a0 + 1, j);
    SkipIsLongest(s, i, a0, EmailChar);
    assert !IsEmailChar(s[a0]);
  }

  lemma EmailEndAtSound(s: string, i: nat)
    requires i <= |s|
    ensures EmailEndAt(s, i).Some? ==> EmailMatch(s, i, EmailEndAt(s, i).value)
  {
    var a := Skip(s, i, EmailChar);
    if i < a < |s| && s[a] == '@' {
      DomainEndAtSound(s, a + 1);
      assert EmailEndAt(s, i) == DomainEndAt(s, a + 1);
    }
  }

  lemma EmailEndAtComplete(s: string, i: nat, j: int)
    requires i <= |s| && EmailMatch(s, i, j)
    ensures EmailEndAt(s, i).Some? && j <= EmailEndAt(s, i).value
  {
    EmailMatchAtSign(s, i, j);
    var a := Skip(s, i, EmailChar);
    EmailEndAtSign(s, i);
    DomainEndAtComplete(s, a + 1, j);
  }

  lemma EmailEndAtCorrect(s: string, i: nat)
    requires i <= |s|
    ensures EmailEndAt(s, i).Some? ==> EmailMatch(s, i, EmailEndAt(s, i).value)
    ensures EmailEndAt(s, i).Some? ==> forall j :: EmailMatch(s, i, j) ==> j <= EmailEndAt(s, i).value
    ensures EmailEndAt(s, i).None? ==> forall j :: !EmailMatch(s, i, j)
  {
    EmailEndAtSound(s, i);
    forall j | EmailMatch(s, i, j)
      ensures EmailEndAt(s, i).Some? && j <= EmailEndAt(s, i).value
    {
      EmailEndAtComplete(s, i, j);
    }
  }

  /** At most one match is both leftmost and longest. */
  lemma EmailLeftmostLongestUnique(s: string, i: nat, e: nat)
    requires EmailMatch(s, i, e)
    requires forall i', j :: 0 <= i' < i ==> !EmailMatch(s, i', j)
    requires forall j :: EmailMatch(s, i, j) ==> j <= e
    ensures forall i2, e2 ::
              (EmailMatch(s, i2, e2)
               && (forall i', j :: 0 <= i' < i2 ==> !EmailMatch(s, i', j))
               && (forall j :: EmailMatch(s, i2, j) ==> j <= e2))
              ==> i2 == i && e2 == e
  {
  }

  /** The leftmost email match at or after `from`, as (start, end). */
  function FindEmailFrom(s: string, from: nat): (r: Option<(nat, nat)>)
    requires from <= |s|
    ensures r.Some? ==> from <= r.value.0 && EmailMatch(s, r.value.0, r.value.1)
    ensures r.Some? ==> forall i, j :: from <= i < r.value.0 ==> !EmailMatch(s, i, j)
    ensures r.Some? ==> forall j :: EmailMatch(s, r.value.0, j) ==> j <= r.value.1
    ensures r.None? ==> forall i, j :: from <= i ==> !EmailMatch(s, i, j)
    decreases |s| - from
  {
    EmailEndAtCorrect(s, from);
    match EmailEndAt(s, from)
    case Some(e) => Some((from, e))
    case None =>
      if from < |s| then FindEmailFrom(s, from + 1)
      else
        assert forall i, j :: from <= i ==> !EmailMatch(s, i, j);
        None
  }

  /** `re.search(r'[\w\.-]+@[\w\.-]+\.\w+', msg).group(0)`: nothing iff the
      pattern matches nowhere, otherwise the leftmost match, longest at its start. */
  function ExtractEmail(msg: string): (r: Option<string>)
    ensures r.None? <==> forall i, j :: !EmailMatch(msg, i, j)
    ensures forall i, e ::
              (EmailMatch(msg, i, e)
               && (forall i', j :: 0 <= i' < i ==> !EmailMatch(msg, i', j))
               && (forall j :: EmailMatch(msg, i, j) ==> j <= e))
              ==> r == Some(msg[i..e])
  {
    match FindEmailFrom(msg, 0)
    case Some((i, e)) =>
      EmailLeftmostLongestUnique(msg, i, e);
      Some(msg[i..e])
    case None => None
  }

  // ---------------------------------------------------------------------------
  // Declared values win
  // ---------------------------------------------------------------------------

  /** `data.get('email') or <extracted email>`. */
  function ResolveEmail(declared: Option<string>, msg: string): (email: Option<string>)
    ensures Truthy(declared) ==> email == declared
    ensures !Truthy(declared) ==> email == ExtractEmail(msg)
  {
    if Truthy(declared) then declared else ExtractEmail(msg)
  }

  /** `data.get('orderId') or <extracted order id>`. */
  function ResolveOrderId(declared: Option<string>, msg: string): (orderId: Option<string>)
    ensures Truthy(declared) ==> orderId == declared
    ensures !Truthy(declared) ==> orderId == ExtractOrderId(msg)
  {
    if Truthy(declared) then declared else ExtractOrderId(msg)
  }

  // ---------------------------------------------------------------------------
  // Worked examples
  // ---------------------------------------------------------------------------

  lemma SpacedIdCleans(u: string)
    requires u == "SL 1001"
    ensures RemoveSpaces(u) == "SL1001"
  {
    var pre, post := u[..2], u[3..];
    assert u == pre + " " + post;
    RemoveSpacesDropsSpace(pre, post);
    assert ' ' !in pre && ' ' !in post;
  }

  /** "sl 1001" is extracted as "SL1001": upper-cased, space removed. */
  lemma ExtractLowerCaseSpacedId(s: string)
    requires s == "sl 1001"
    ensures ExtractOrderId(s) == Some("SL1001")
  {
    assert AllIn(s, 2, 3, Whitespace) && AllIn(s, 3, 7, Digit);
    assert OrderIdMatch(s, 0, 7);
    assert Upper(s[0..7]) == "SL 1001";
    SpacedIdCleans(Upper(s[0..7]));
  }

  /** Only space characters are removed: a tab between "SL" and the digits stays. */
  lemma ExtractTabbedIdKeepsTab(s: string)
    requires s == "SL\t7"
    ensures ExtractOrderId(s) == Some(s)
  {
    assert AllIn(s, 2, 3, Whitespace) && AllIn(s, 3, 4, Digit);
    assert OrderIdMatch(s, 0, 4);
    assert Upper(s[0..4]) == s;
  }

  /** The email match in a message whose only '@' is at 17, preceded by a word
      boundary at 13 and followed by one at 23. */
  lemma EmailFromLayout(s: string)
    requires |s| >= 24
    requires forall k :: 0 <= k < |s| && s[k] == '@' ==> k == 17
    requires s[17] == '@' && s[19] == '.' && !IsEmailChar(s[13]) && !IsEmailChar(s[23])
    requires AllIn(s, 14, 17, EmailChar) && AllIn(s, 18, 19, EmailChar) && AllIn(s, 20, 23, Word)
    ensures ExtractEmail(s) == Some(s[14..23])
  {
    assert DomainMatch(s, 18, 23);
    assert EmailMatch(s, 14, 23);
    forall i', j | 0 <= i' < 14 ensures !EmailMatch(s, i', j) {
      assert !IsEmailChar(s[13]);
    }
    forall j | EmailMatch(s, 14, j) ensures j <= 23 {
      var a :| 0 <= 14 < a < j <= |s| && AllIn(s, 14, a, EmailChar) && s[a] == '@' && DomainMatch(s, a + 1, j);
      assert a == 17;
      var b :| 0 <= 18 < b && b + 1 < j <= |s| && AllIn(s, 18, b, EmailChar) && s[b] == '.' && AllIn(s, b + 1, j, Word);
      assert b < 23;
    }
  }

  /** The order-id match of a message whose first 'S'/'s' is at 33. */
  lemma OrderIdFromLayout(s: string)
    requires |s| == 40
    requires forall k :: 0 <= k < 33 ==> !IsS(s[k])
    requires IsS(s[33]) && IsL(s[34])
    requires AllIn(s, 35, 36, Whitespace) && AllIn(s, 36, 40, Digit)
    ensures ExtractOrderId(s) == Some(RemoveSpaces(Upper(s[33..40])))
  {
    assert OrderIdMatch(s, 33, 40);
  }

  const GREETING := "contact me at "
  const ADDRESS := "a.b@x.com"
  const FILLER := " re order "
  const ORDER_REF := "SL 1001"

  lemma MessageLayout(s: string)
    requires s == GREETING + ADDRESS + FILLER + ORDER_REF
    ensures |s| == 40 && s[14..23] == ADDRESS && s[33..40] == ORDER_REF
    ensures forall k :: 0 <= k < 14 ==> s[k] == GREETING[k]
    ensures forall k :: 23 <= k < 33 ==> s[k] == FILLER[k - 23]
  {
  }

  lemma MessageEmailLayout(s: string)
    requires |s| == 40 && s[14..23] == ADDRESS
    requires forall k :: 0 <= k < 14 ==> s[k] == GREETING[k]
    requires forall k :: 23 <= k < 33 ==> s[k] == FILLER[k - 23]
    requires s[33..40] == ORDER_REF
    ensures forall k :: 0 <= k < |s| && s[k] == '@' ==> k == 17
    ensures s[17] == '@' && s[19] == '.' && !IsEmailChar(s[13]) && !IsEmailChar(s[23])
    ensures AllIn(s, 14, 17, EmailChar) && AllIn(s, 18, 19, EmailChar) && AllIn(s, 20, 23, Word)
  {
    assert '@' !in GREETING && '@' !in FILLER && '@' !in ORDER_REF;
    assert forall k :: 14 <= k < 23 ==> s[k] == ADDRESS[k - 14];
    assert forall k :: 33 <= k < 40 ==> s[k] == ORDER_REF[k - 33];
    assert GREETING[13] == ' ' && FILLER[0] == ' ';
  }

  lemma MessageOrderLayout(s: string)
    requires |s| == 40 && s[14..23] == ADDRESS
    requires forall k :: 0 <= k < 14 ==> s[k] == GREETING[k]
    requires forall k :: 23 <= k < 33 ==> s[k] == FILLER[k - 23]
    requires s[33..40] == ORDER_REF
    ensures forall k :: 0 <= k < 33 ==> !IsS(s[k])
    ensures IsS(s[33]) && IsL(s[34])
    ensures AllIn(s, 35, 36, Whitespace) && AllIn(s, 36, 40, Digit)
  {
    assert forall k :: 0 <= k < |GREETING| ==> !IsS(GREETING[k]);
    assert forall k :: 0 <= k < |ADDRESS| ==> !IsS(ADDRESS[k]);
    assert forall k :: 0 <= k < |FILLER| ==> !IsS(FILLER[k]);
    assert forall k :: 14 <= k < 23 ==> s[k] == ADDRESS[k - 14];
    assert forall k :: 33 <= k < 40 ==> s[k] == ORDER_REF[k - 33];
  }

  /** The email extracted from "contact me at a.b@x.com re order SL 1001". */
  lemma ExtractEmailFromMessage(s: string)
    requires s == GREETING + ADDRESS + FILLER + ORDER_REF
    ensures ExtractEmail(s) == Some("a.b@x.com")
  {
    MessageLayout(s);
    MessageEmailLayout(s);
    EmailFromLayout(s);
  }

  /** The order id extracted from the same message, normalised to "SL1001". */
  lemma ExtractOrderIdFromMessage(s: string)
    requires s == GREETING + ADDRESS + FILLER + ORDER_REF
    ensures ExtractOrderId(s) == Some("SL1001")
  {
    MessageLayout(s);
    MessageOrderLayout(s);
    OrderIdFromLayout(s);
    assert Upper(ORDER_REF) == ORDER_REF;
    SpacedIdCleans(ORDER_REF);
  }
}
