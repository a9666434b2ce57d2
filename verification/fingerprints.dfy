/** Finding identity: separator-joined payloads and their hashes (backend/app/services/github_finding_reconcile.py). */
module Fingerprints {
  import opened Options
  import opened Text

  const SEP := '\U{001F}'

  datatype Category = Security | Bug | Performance | Style | Maintainability | Other

  /** `github_findings.start_line` is a 32-bit column. */
  type Line = n: int | -0x8000_0000 <= n < 0x8000_0000

  /** SHA-256 of a payload, treated as injective. */
  datatype Fingerprint = Fingerprint(payload: string)

  /**
   * What is fixed for one pull request: the two UUIDs in text form and the claim slot of a stripped title
   * (the first 32 hexadecimal digits of its SHA-256, of which only the shape is used).
   */
  datatype Scope = Scope(workspaceId: string, pullRequestId: string, slotOfStripped: string -> string)

  predicate SepFree(s: string) {
    forall i | 0 <= i < |s| :: s[i] != SEP
  }

  ghost predicate ValidScope(scope: Scope) {
    && SepFree(scope.workspaceId) && SepFree(scope.pullRequestId)
    && forall title: string :: IsSlot(scope.slotOfStripped(title))
  }

  predicate IsSlot(slot: string) {
    |slot| == 32 && SepFree(slot)
  }

  function CategoryName(category: Category): string {
    match category
    case Security => "security"
    case Bug => "bug"
    case Performance => "performance"
    case Style => "style"
    case Maintainability => "maintainability"
    case Other => "other"
  }

  function PathOrEmpty(filePath: Option<string>): string {
    if filePath.Some? then filePath.value else ""
  }

  function ClaimSlotKey(scope: Scope, title: string): string {
    scope.slotOfStripped(Strip(title))
  }

  // ---------- Decimal text of a line number ----------

  function Digits(n: nat): (s: string)
    ensures |s| >= 1 && SepFree(s)
  {
    if n < 10 then [['0', '1', '2', '3', '4', '5', '6', '7', '8', '9'][n]]
    else Digits(n / 10) + [['0', '1', '2', '3', '4', '5', '6', '7', '8', '9'][n % 10]]
  }

  function StartLineKey(startLine: Option<Line>): string {
    match startLine
    case None => "0"
    case Some(line) =>
      var n: int := line;
      if n < 0 then "-" + Digits(-n) else Digits(n)
  }

  function PowerOfTen(k: nat): nat {
    if k == 0 then 1 else 10 * PowerOfTen(k - 1)
  }

  lemma TenDigits()
    ensures PowerOfTen(10) == 10_000_000_000
  {
    assert PowerOfTen(4) == 10_000;
    assert PowerOfTen(7) == 10_000_000;
  }

  lemma {:induction false} DigitsLength(n: nat, k: nat)
    requires k >= 1 && n < PowerOfTen(k)
    ensures |Digits(n)| <= k
  {
    if n >= 10 {
      DigitsLength(n / 10, k - 1);
    }
  }

  lemma LineDigits(n: nat)
    requires n <= 0x8000_0000
    ensures |Digits(n)| <= 10
  {
    TenDigits();
    DigitsLength(n, 10);
  }

  /** A line key has at most 11 characters, fewer than a claim slot, and no separator. */
  lemma StartLineKeyShape(startLine: Option<Line>)
    ensures SepFree(StartLineKey(startLine)) && |StartLineKey(startLine)| <= 11
  {
    hide Digits;
    if startLine.Some? {
      var line: int := startLine.value;
      LineDigits(if line < 0 then -line else line);
    }
  }

  /** The number that a decimal text stands for. */
  function NumberOf(s: string): int {
    if s == "" then 0 else 10 * NumberOf(s[..|s| - 1]) + (s[|s| - 1] as int - '0' as int)
  }

  lemma {:induction false} DigitsAreDecimal(n: nat)
    ensures NumberOf(Digits(n)) == n && Digits(n)[0] != '-'
  {
    if n < 10 {
      assert Digits(n)[..0] == "";
    } else {
      DigitsAreDecimal(n / 10);
      assert Digits(n)[..|Digits(n)| - 1] == Digits(n / 10);
      assert n == 10 * (n / 10) + n % 10;
    }
  }

  function LineOrZero(startLine: Option<Line>): int {
    if startLine.Some? then startLine.value else 0
  }

  function LineOfKey(key: string): int {
    if key != "" && key[0] == '-' then -NumberOf(key[1..]) else NumberOf(key)
  }

  lemma LineOfSigned(digits: string)
    requires digits != "" && digits[0] != '-'
    ensures LineOfKey(digits) == NumberOf(digits) && LineOfKey("-" + digits) == -NumberOf(digits)
  {
    hide NumberOf;
    assert ("-" + digits)[0] == '-' && ("-" + digits)[1..] == digits;
  }

  lemma KeyText(line: Option<Line>)
    ensures var n := LineOrZero(line); StartLineKey(line) == if n < 0 then "-" + Digits(-n) else Digits(n)
  {
  }

  lemma KeyOfLine(line: Option<Line>)
    ensures LineOfKey(StartLineKey(line)) == LineOrZero(line)
  {
    hide *;
    var n := LineOrZero(line);
    KeyText(line);
    if n < 0 {
      DigitsAreDecimal(-n);
      LineOfSigned(Digits(-n));
    } else {
      DigitsAreDecimal(n);
      LineOfSigned(Digits(n));
    }
  }

  /** The line key determines the line, a missing one being line 0. */
  lemma StartLineKeyInjective(line1: Option<Line>, line2: Option<Line>)
    ensures StartLineKey(line1) == StartLineKey(line2) <==> LineOrZero(line1) == LineOrZero(line2)
  {
    KeyOfLine(line1);
    KeyOfLine(line2);
    KeyText(line1);
    KeyText(line2);
    hide StartLineKey, Digits, LineOfKey;
  }

  // ---------- Payloads ----------

  function ComputeFingerprint(scope: Scope, filePath: Option<string>, category: Category, slot: string): Fingerprint {
    Fingerprint(Join([SEP], [scope.workspaceId, scope.pullRequestId, PathOrEmpty(filePath),
                             CategoryName(category), slot]))
  }

  function ComputeLegacyFingerprint(scope: Scope, filePath: Option<string>, category: Category, title: string,
                                    startLine: Option<Line>): Fingerprint {
    Fingerprint(Join([SEP], [scope.workspaceId, scope.pullRequestId, PathOrEmpty(filePath), CategoryName(category),
                             Strip(title), StartLineKey(startLine)]))
  }

  function Prefix(scope: Scope): string {
    scope.workspaceId + [SEP] + scope.pullRequestId + [SEP]
  }

  function Sep(a: string, b: string): string { a + [SEP] + b }

  lemma JoinFive(a: string, b: string, c: string, d: string, e: string)
    ensures Join([SEP], [a, b, c, d, e]) == a + [SEP] + b + [SEP] + Sep(Sep(c, d), e)
  {
    assert [a, b, c, d, e][1..] == [b, c, d, e] && [b, c, d, e][1..] == [c, d, e];
    assert [c, d, e][1..] == [d, e] && [d, e][1..] == [e];
    assert Join([SEP], [d, e]) == d + [SEP] + e;
    assert Join([SEP], [c, d, e]) == c + [SEP] + Join([SEP], [d, e]);
    assert Join([SEP], [b, c, d, e]) == b + [SEP] + Join([SEP], [c, d, e]);
    assert Join([SEP], [c, d, e]) == Sep(Sep(c, d), e);
  }

  lemma JoinSix(a: string, b: string, c: string, d: string, e: string, f: string)
    ensures Join([SEP], [a, b, c, d, e, f]) == a + [SEP] + b + [SEP] + Sep(Sep(Sep(c, d), e), f)
  {
    JoinFive(b, c, d, e, f);
    assert [a, b, c, d, e, f][1..] == [b, c, d, e, f];
    assert b + [SEP] + c + [SEP] + Sep(Sep(d, e), f) == b + [SEP] + Sep(Sep(Sep(c, d), e), f);
    assert a + [SEP] + (b + [SEP] + Sep(Sep(Sep(c, d), e), f)) == a + [SEP] + b + [SEP] + Sep(Sep(Sep(c, d), e), f);
  }

  /** The part of a payload after the two UUIDs. */
  lemma PayloadTail(scope: Scope, filePath: Option<string>, category: Category, slot: string, title: string,
                    startLine: Option<Line>)
    ensures ComputeFingerprint(scope, filePath, category, slot).payload
         == Prefix(scope) + Sep(Sep(PathOrEmpty(filePath), CategoryName(category)), slot)
    ensures ComputeLegacyFingerprint(scope, filePath, category, title, startLine).payload
         == Prefix(scope)
              + Sep(Sep(Sep(PathOrEmpty(filePath), CategoryName(category)), Strip(title)), StartLineKey(startLine))
  {
    JoinFive(scope.workspaceId, scope.pullRequestId, PathOrEmpty(filePath), CategoryName(category), slot);
    JoinSix(scope.workspaceId, scope.pullRequestId, PathOrEmpty(filePath), CategoryName(category),
            Strip(title), StartLineKey(startLine));
  }

  // ---------- Injectivity ----------

  lemma SplitAtLastSep(a: string, b: string, c: string, d: string)
    requires Sep(a, b) == Sep(c, d) && SepFree(b) && SepFree(d)
    ensures a == c && b == d
  {
    var s := Sep(a, b);
    LastSepAt(a, b);
    LastSepAt(c, d);
    assert s[|a|] == SEP && s[|c|] == SEP;
    assert a == s[..|a|] && b == s[|a| + 1..];
  }

  lemma LastSepAt(a: string, b: string)
    requires SepFree(b)
    ensures forall k | |a| < k < |Sep(a, b)| :: Sep(a, b)[k] != SEP
  {
    assert forall k | |a| < k < |Sep(a, b)| :: Sep(a, b)[k] == b[k - |a| - 1];
  }

  lemma SplitAtFirstSep(a: string, b: string, c: string, d: string)
    requires Sep(a, b) == Sep(c, d) && SepFree(a) && SepFree(c)
    ensures a == c && b == d
  {
    var s := Sep(a, b);
    FirstSepAt(a, b);
    FirstSepAt(c, d);
    assert s[|a|] == SEP && s[|c|] == SEP;
    assert a == s[..|a|] && b == s[|a| + 1..];
  }

  lemma FirstSepAt(a: string, b: string)
    requires SepFree(a)
    ensures forall k | 0 <= k < |a| :: Sep(a, b)[k] != SEP
  {
    assert forall k | 0 <= k < |a| :: Sep(a, b)[k] == a[k];
  }

  lemma CategoryNames(a: Category, b: Category)
    ensures SepFree(CategoryName(a))
    ensures CategoryName(a) == CategoryName(b) ==> a == b
  {
    var x, y := CategoryName(a), CategoryName(b);
    assert x == y ==> |x| == |y| && x[0] == y[0];
  }

  /** The join is injective on (path, category, slot) although the path is arbitrary text. */
  lemma FingerprintInjective(scope: Scope, path1: Option<string>, category1: Category, slot1: string,
                             path2: Option<string>, category2: Category, slot2: string)
    requires IsSlot(slot1) && IsSlot(slot2)
    requires ComputeFingerprint(scope, path1, category1, slot1) == ComputeFingerprint(scope, path2, category2, slot2)
    ensures PathOrEmpty(path1) == PathOrEmpty(path2) && category1 == category2 && slot1 == slot2
  {
    PayloadTail(scope, path1, category1, slot1, "", None);
    PayloadTail(scope, path2, category2, slot2, "", None);
    var head1 := Sep(PathOrEmpty(path1), CategoryName(category1));
    var head2 := Sep(PathOrEmpty(path2), CategoryName(category2));
    SamePrefix(Prefix(scope), Sep(head1, slot1), Sep(head2, slot2));
    SplitAtLastSep(head1, slot1, head2, slot2);
    CategoryNames(category1, category2);
    CategoryNames(category2, category1);
    SplitAtLastSep(PathOrEmpty(path1), CategoryName(category1), PathOrEmpty(path2), CategoryName(category2));
  }

  lemma SamePrefix(prefix: string, a: string, b: string)
    requires prefix + a == prefix + b
    ensures a == b
  {
    assert a == (prefix + a)[|prefix|..];
    assert b == (prefix + b)[|prefix|..];
  }

  /** A current and a legacy fingerprint never coincide: their last components have different lengths. */
  lemma CurrentIsNotLegacy(scope: Scope, path1: Option<string>, category1: Category, slot: string,
                           path2: Option<string>, category2: Category, title: string, startLine: Option<Line>)
    requires IsSlot(slot)
    ensures ComputeFingerprint(scope, path1, category1, slot)
         != ComputeLegacyFingerprint(scope, path2, category2, title, startLine)
  {
    StartLineKeyShape(startLine);
    PayloadTail(scope, path1, category1, slot, "", None);
    PayloadTail(scope, path2, category2, "", title, startLine);
    var head1 := Sep(PathOrEmpty(path1), CategoryName(category1));
    var head2 := Sep(Sep(PathOrEmpty(path2), CategoryName(category2)), Strip(title));
    if ComputeFingerprint(scope, path1, category1, slot)
         == ComputeLegacyFingerprint(scope, path2, category2, title, startLine) {
      SamePrefix(Prefix(scope), Sep(head1, slot), Sep(head2, StartLineKey(startLine)));
      SplitAtLastSep(head1, slot, head2, StartLineKey(startLine));
      assert false;
    }
  }

  /** Legacy identity is unambiguous when the titles, or the paths, are free of the separator. */
  predicate LegacySafe(byTitle: bool, filePath: Option<string>, title: string) {
    if byTitle then SepFree(Strip(title)) else SepFree(PathOrEmpty(filePath))
  }

  lemma LegacyInjective(scope: Scope, byTitle: bool,
                        path1: Option<string>, category1: Category, title1: string, line1: Option<Line>,
                        path2: Option<string>, category2: Category, title2: string, line2: Option<Line>)
    requires LegacySafe(byTitle, path1, title1) && LegacySafe(byTitle, path2, title2)
    requires ComputeLegacyFingerprint(scope, path1, category1, title1, line1)
          == ComputeLegacyFingerprint(scope, path2, category2, title2, line2)
    ensures PathOrEmpty(path1) == PathOrEmpty(path2) && category1 == category2 && Strip(title1) == Strip(title2)
    ensures LineOrZero(line1) == LineOrZero(line2)
  {
    StartLineKeyInjective(line1, line2);
    CategoryNames(category1, category2);
    CategoryNames(category2, category1);
    SameLegacyText(scope, path1, category1, title1, line1, path2, category2, title2, line2);
    var p1, c1, t1 := PathOrEmpty(path1), CategoryName(category1), Strip(title1);
    var p2, c2, t2 := PathOrEmpty(path2), CategoryName(category2), Strip(title2);
    if byTitle {
      SplitAtLastSep(Sep(p1, c1), t1, Sep(p2, c2), t2);
      SplitAtLastSep(p1, c1, p2, c2);
    } else {
      SepAssociative(p1, c1, t1);
      SepAssociative(p2, c2, t2);
      SplitAtFirstSep(p1, Sep(c1, t1), p2, Sep(c2, t2));
      SplitAtFirstSep(c1, t1, c2, t2);
    }
  }

  lemma SepAssociative(a: string, b: string, c: string)
    ensures Sep(Sep(a, b), c) == Sep(a, Sep(b, c))
  {
  }

  /** Text in which a category name between separators starts at `k` and a stripped title follows. */
  predicate SplitsAt(s: string, k: nat, category: Category) {
    var rest := k + |CategoryName(category)| + 2;
    rest <= |s| && s[k..rest] == [SEP] + CategoryName(category) + [SEP] && Strip(s[rest..]) == s[rest..]
  }

  function LegacyText(filePath: Option<string>, category: Category, title: string): string {
    Sep(Sep(PathOrEmpty(filePath), CategoryName(category)), Strip(title))
  }

  ghost predicate SharesLegacy(scope: Scope, path1: Option<string>, category1: Category, title1: string,
                               line1: Option<Line>,
                               path2: Option<string>, category2: Category, title2: string, line2: Option<Line>) {
    && ComputeLegacyFingerprint(scope, path1, category1, title1, line1)
         == ComputeLegacyFingerprint(scope, path2, category2, title2, line2)
    && !(PathOrEmpty(path1) == PathOrEmpty(path2) && category1 == category2)
  }

  /**
   * Another (path, category) shares the legacy fingerprint exactly when the joined text of path, category and title
   * can be cut at a second place.
   */
  lemma LegacyAmbiguousIff(scope: Scope, filePath: Option<string>, category: Category, title: string,
                           line: Option<Line>)
    ensures (exists p, c, t, l :: SharesLegacy(scope, filePath, category, title, line, p, c, t, l))
        <==> (exists k: nat, c :: k != |PathOrEmpty(filePath)| && SplitsAt(LegacyText(filePath, category, title), k, c))
  {
    if p, c, t, l :| SharesLegacy(scope, filePath, category, title, line, p, c, t, l) {
      SharedMeansSecondCut(scope, filePath, category, title, line, p, c, t, l);
    }
    if k: nat, c :| k != |PathOrEmpty(filePath)| && SplitsAt(LegacyText(filePath, category, title), k, c) {
      SecondCutIsShared(scope, filePath, category, title, line, k, c);
    }
  }

  lemma SharedMeansSecondCut(scope: Scope, path1: Option<string>, category1: Category, title1: string,
                             line1: Option<Line>,
                             path2: Option<string>, category2: Category, title2: string, line2: Option<Line>)
    requires SharesLegacy(scope, path1, category1, title1, line1, path2, category2, title2, line2)
    ensures |PathOrEmpty(path2)| != |PathOrEmpty(path1)|
    ensures SplitsAt(LegacyText(path1, category1, title1), |PathOrEmpty(path2)|, category2)
  {
    SameLegacyText(scope, path1, category1, title1, line1, path2, category2, title2, line2);
    CategoryNames(category1, category2);
    CategoryNames(category2, category1);
    StripIdempotent(title2);
    hide Strip, CategoryName, Sep, SepFree;
    CutOfJoined(PathOrEmpty(path2), CategoryName(category2), Strip(title2));
    if |PathOrEmpty(path2)| == |PathOrEmpty(path1)| {
      SameCut(PathOrEmpty(path1), CategoryName(category1), Strip(title1), PathOrEmpty(path2), CategoryName(category2),
              Strip(title2));
    }
  }

  lemma CutOfJoined(p: string, n: string, t: string)
    ensures var s, rest := Sep(Sep(p, n), t), |p| + |n| + 2;
      rest <= |s| && s[|p|..rest] == [SEP] + n + [SEP] && s[rest..] == t
  {
  }

  lemma SameCut(p1: string, n1: string, t1: string, p2: string, n2: string, t2: string)
    requires Sep(Sep(p1, n1), t1) == Sep(Sep(p2, n2), t2) && |p1| == |p2| && SepFree(n1) && SepFree(n2)
    ensures p1 == p2 && n1 == n2
  {
    SepAssociative(p1, n1, t1);
    SepAssociative(p2, n2, t2);
    var s := Sep(p1, Sep(n1, t1));
    assert p1 == s[..|p1|] && p2 == s[..|p1|];
    assert Sep(n1, t1) == s[|p1| + 1..] && Sep(n2, t2) == s[|p1| + 1..];
    SplitAtFirstSep(n1, t1, n2, t2);
  }

  lemma SecondCutIsShared(scope: Scope, filePath: Option<string>, category: Category, title: string, line: Option<Line>,
                          k: nat, c: Category)
    requires k != |PathOrEmpty(filePath)| && SplitsAt(LegacyText(filePath, category, title), k, c)
    ensures exists p, c2, t, l :: SharesLegacy(scope, filePath, category, title, line, p, c2, t, l)
  {
    var s := LegacyText(filePath, category, title);
    var rest := k + |CategoryName(c)| + 2;
    var p, t := s[..k], s[rest..];
    CutText(s, k, c);
    PayloadTail(scope, filePath, category, "", title, line);
    PayloadTail(scope, Some(p), c, "", t, line);
    assert SharesLegacy(scope, filePath, category, title, line, Some(p), c, t, line) by {
      hide ComputeLegacyFingerprint, CategoryName, Strip, Sep, SplitsAt, StartLineKey, Prefix;
    }
  }

  lemma CutText(s: string, k: nat, c: Category)
    requires SplitsAt(s, k, c)
    ensures k <= |s| && LegacyText(Some(s[..k]), c, s[k + |CategoryName(c)| + 2..]) == s
  {
    hide Strip, CategoryName;
    var name := CategoryName(c);
    var rest := k + |name| + 2;
    assert s == s[..k] + ([SEP] + name + [SEP]) + s[rest..];
    assert Sep(Sep(s[..k], name), s[rest..]) == s[..k] + ([SEP] + name + [SEP]) + s[rest..];
  }

  lemma SameLegacyText(scope: Scope, path1: Option<string>, category1: Category, title1: string, line1: Option<Line>,
                       path2: Option<string>, category2: Category, title2: string, line2: Option<Line>)
    requires ComputeLegacyFingerprint(scope, path1, category1, title1, line1)
          == ComputeLegacyFingerprint(scope, path2, category2, title2, line2)
    ensures LegacyText(path1, category1, title1) == LegacyText(path2, category2, title2)
    ensures StartLineKey(line1) == StartLineKey(line2)
  {
    StartLineKeyShape(line1);
    StartLineKeyShape(line2);
    PayloadTail(scope, path1, category1, "", title1, line1);
    PayloadTail(scope, path2, category2, "", title2, line2);
    var t1, t2 := LegacyText(path1, category1, title1), LegacyText(path2, category2, title2);
    SamePrefix(Prefix(scope), Sep(t1, StartLineKey(line1)), Sep(t2, StartLineKey(line2)));
    SplitAtLastSep(t1, StartLineKey(line1), t2, StartLineKey(line2));
  }

  /** The failing case: with the separator inside paths and titles, two identities share one legacy fingerprint. */
  lemma LegacyCollision(scope: Scope)
    ensures var title := Sep("x", Sep("style", "t"));
      var longPath := Sep("a", Sep("bug", "x"));
      ComputeLegacyFingerprint(scope, Some("a"), Bug, title, None)
        == ComputeLegacyFingerprint(scope, Some(longPath), Style, "t", None)
  {
    var title := Sep("x", Sep("style", "t"));
    var longPath := Sep("a", Sep("bug", "x"));
    PayloadTail(scope, Some("a"), Bug, "", title, None);
    PayloadTail(scope, Some(longPath), Style, "", "t", None);
    assert Strip(title) == title by {
      assert title[0] == 'x' && title[|title| - 1] == 't';
    }
    assert Strip("t") == "t";
    assert Sep(Sep("a", "bug"), title) == Sep(Sep(longPath, "style"), "t");
  }
}
