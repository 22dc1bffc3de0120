/**
 Kubernetes-safe identifiers: sanitising by a loop over runes, trimming, and truncation with a hash.

 Lower-casing and the hash are parameters: any map of runes, consulted only outside
 `[a-z0-9._-]`, and any number of which ten hexadecimal digits are shown.
 */
module KubeIdent {
  const MAX_LENGTH: nat := 63
  const HASH_LENGTH: nat := 10
  const KEEP: nat := MAX_LENGTH - HASH_LENGTH - 1

  predicate IsAlnum(c: char) { 'a' <= c <= 'z' || '0' <= c <= '9' }
  predicate IsPunct(c: char) { c == '-' || c == '_' || c == '.' }
  predicate IsLabelChar(c: char) { IsAlnum(c) || IsPunct(c) }
  predicate IsHex(c: char) { '0' <= c <= '9' || 'a' <= c <= 'f' }

  type Lower = char -> char

  function LowerRune(lower: Lower, c: char): char { if IsLabelChar(c) then c else lower(c) }

  type Hash = string -> nat

  function HexDigits(n: nat, k: nat): (r: string)
    ensures |r| == k && forall i :: 0 <= i < k ==> IsHex(r[i])
  {
    if k == 0 then "" else HexDigits(n / 16, k - 1) + ["0123456789abcdef"[n % 16]]
  }

  /** Ten hexadecimal digits that stand for the hash. */
  function ShortHash(hash: Hash, s: string): string { HexDigits(hash(s), HASH_LENGTH) }

  ghost predicate IsShortHash(s: string) { |s| == HASH_LENGTH && forall i :: 0 <= i < |s| ==> IsHex(s[i]) }

  // ------------------------------------------------------------ the targets

  predicate EndsAlnum(s: string) { s != "" && IsAlnum(s[0]) && IsAlnum(s[|s| - 1]) }

  /** A label value that Kubernetes accepts: at most 63 of `[a-z0-9._-]`, alphanumeric at both ends. */
  predicate IsLabelValue(s: string) {
    |s| <= MAX_LENGTH && EndsAlnum(s) && forall i :: 0 <= i < |s| ==> IsLabelChar(s[i])
  }

  /** An RFC 1123 label (section 2.1): letters, digits and hyphens, no hyphen at either end. */
  predicate IsDnsLabel(s: string) {
    |s| <= MAX_LENGTH && EndsAlnum(s) && forall i :: 0 <= i < |s| ==> IsAlnum(s[i]) || s[i] == '-'
  }

  predicate NoDoubleHyphen(s: string) { forall i :: 0 < i < |s| ==> s[i - 1] != '-' || s[i] != '-' }

  // -------------------------------------------------------------- sanitising

  function Lowered(lower: Lower, s: string): (r: string)
    ensures |r| == |s| && forall i :: 0 <= i < |s| ==> r[i] == LowerRune(lower, s[i])
  {
    if s == "" then "" else [LowerRune(lower, s[0])] + Lowered(lower, s[1..])
  }

  /** Runs of disallowed characters become one hyphen; `last` tells that one was just written. */
  function Collapsed(s: string, allowed: char -> bool, last: bool): string {
    if s == "" then ""
    else if allowed(s[0]) then [s[0]] + Collapsed(s[1..], allowed, false)
    else if last then Collapsed(s[1..], allowed, true)
    else "-" + Collapsed(s[1..], allowed, true)
  }

  function TrimLeft(s: string): string {
    if s != "" && IsPunct(s[0]) then TrimLeft(s[1..]) else s
  }

  function TrimRight(s: string): string {
    if s != "" && IsPunct(s[|s| - 1]) then TrimRight(s[..|s| - 1]) else s
  }

  function Trim(s: string): string { TrimRight(TrimLeft(s)) }

  function Sanitized(lower: Lower, allowed: char -> bool, value: string): string {
    Trim(Collapsed(Lowered(lower, value), allowed, false))
  }

  /** The loop over runes, with a builder and a flag. */
  method Sanitize(lower: Lower, allowed: char -> bool, value: string) returns (r: string)
    ensures r == Sanitized(lower, allowed, value)
  {
    var builder, lastReplacement, runes := "", false, Lowered(lower, value);
    for i := 0 to |runes|
      invariant builder + Collapsed(runes[i..], allowed, lastReplacement) == Collapsed(runes, allowed, false)
    {
      ghost var rest := runes[i..];
      assert rest[0] == runes[i] && rest[1..] == runes[i + 1..];
      if allowed(runes[i]) {
        builder := builder + [runes[i]];
        lastReplacement := false;
      } else if !lastReplacement {
        builder := builder + "-";
        lastReplacement := true;
      }
    }
    assert builder == Collapsed(runes, allowed, false);
    r := Trim(builder);
  }

  // -------------------------------------------------------------- truncation

  /** Truncates what sanitising gives; `""` becomes `"x"`. */
  function Truncated(hash: Hash, value: string): string {
    var v := if value == "" then "x" else value;
    if |v| <= MAX_LENGTH then v else
      var trimmed := TrimRight(v[..KEEP]);
      (if trimmed == "" then "x" else trimmed) + "-" + ShortHash(hash, v)
  }

  function Dns1123LabelFromRaw(lower: Lower, hash: Hash, value: string): string {
    Truncated(hash, Sanitized(lower, IsAlnum, value))
  }

  function LabelValue(lower: Lower, hash: Hash, value: string): string {
    Truncated(hash, Sanitized(lower, IsLabelChar, value))
  }

  // ------------------------------------------------ what sanitising gives

  /** Every character comes from the string or is the replacement. */
  predicate Within(s: string, allowed: char -> bool) { forall i :: 0 <= i < |s| ==> allowed(s[i]) || s[i] == '-' }

  lemma {:induction false} CollapsedWithin(s: string, allowed: char -> bool, last: bool)
    ensures Within(Collapsed(s, allowed, last), allowed)
  {
    if s != "" {
      CollapsedWithin(s[1..], allowed, !allowed(s[0]));
    }
  }

  /** Unless hyphens are allowed, no two come together. */
  lemma {:induction false} CollapsedSpreads(s: string, allowed: char -> bool, last: bool)
    requires !allowed('-')
    ensures NoDoubleHyphen(Collapsed(s, allowed, last))
    ensures last && Collapsed(s, allowed, last) != "" ==> Collapsed(s, allowed, last)[0] != '-'
  {
    if s != "" {
      CollapsedSpreads(s[1..], allowed, !allowed(s[0]));
    }
  }

  lemma {:induction false} TrimLeftIsSuffix(s: string) returns (n: nat)
    ensures n <= |s| && TrimLeft(s) == s[n..]
    ensures TrimLeft(s) != "" ==> !IsPunct(TrimLeft(s)[0])
  {
    if s != "" && IsPunct(s[0]) {
      n := TrimLeftIsSuffix(s[1..]);
      n := n + 1;
    } else {
      n := 0;
    }
  }

  lemma {:induction false} TrimRightIsPrefix(s: string)
    ensures |TrimRight(s)| <= |s| && TrimRight(s) == s[..|TrimRight(s)|]
    ensures TrimRight(s) != "" ==> !IsPunct(TrimRight(s)[|TrimRight(s)| - 1])
    ensures s != "" && !IsPunct(s[0]) ==> TrimRight(s) != ""
  {
    if s != "" && IsPunct(s[|s| - 1]) {
      TrimRightIsPrefix(s[..|s| - 1]);
    }
  }

  /** Trimming keeps a stretch of the string and leaves no punctuation at its ends. */
  lemma TrimIsSlice(s: string) returns (i: nat, j: nat)
    ensures i <= j <= |s| && Trim(s) == s[i..j]
    ensures Trim(s) != "" ==> !IsPunct(Trim(s)[0]) && !IsPunct(Trim(s)[|Trim(s)| - 1])
  {
    i := TrimLeftIsSuffix(s);
    TrimRightIsPrefix(s[i..]);
    j := i + |Trim(s)|;
  }

  lemma SanitizedShape(lower: Lower, allowed: char -> bool, value: string)
    requires forall c :: allowed(c) ==> IsLabelChar(c)
    ensures
      var r := Sanitized(lower, allowed, value);
      Within(r, allowed) && (r != "" ==> EndsAlnum(r)) && (!allowed('-') ==> NoDoubleHyphen(r))
  {
    var c := Collapsed(Lowered(lower, value), allowed, false);
    CollapsedWithin(Lowered(lower, value), allowed, false);
    if !allowed('-') { CollapsedSpreads(Lowered(lower, value), allowed, false); }
    var i, j := TrimIsSlice(c);
    var r := Sanitized(lower, allowed, value);
    assert r == c[i..j];
    assert forall m :: 0 <= m < |r| ==> r[m] == c[i + m];
  }

  // ---------------------------------------------- what truncation gives

  /** A sanitised string over 63 characters: its first 52 characters, trimmed, a hyphen and its hash. */
  lemma LongForm(hash: Hash, v: string)
    requires |v| > MAX_LENGTH && !IsPunct(v[0])
    ensures TrimRight(v[..KEEP]) != "" && |TrimRight(v[..KEEP])| <= KEEP
    ensures !IsPunct(TrimRight(v[..KEEP])[|TrimRight(v[..KEEP])| - 1])
    ensures TrimRight(v[..KEEP]) == v[..|TrimRight(v[..KEEP])|]
    ensures Truncated(hash, v) == TrimRight(v[..KEEP]) + "-" + ShortHash(hash, v)
  {
    TrimRightIsPrefix(v[..KEEP]);
    assert v[..KEEP][..|TrimRight(v[..KEEP])|] == v[..|TrimRight(v[..KEEP])|];
  }

  /** No more is cut off than must be: 52 characters stay in front of the hash, but for punctuation at their end. */
  lemma LongNamesAreFull(hash: Hash, v: string)
    requires |v| > 63 && EndsAlnum(v) && !IsPunct(v[51])
    ensures |Truncated(hash, v)| == 63 && Truncated(hash, v)[..52] == v[..52]
  {
    LongForm(hash, v);
    assert v[..52][51] == v[51];
  }

  lemma TruncatedShape(hash: Hash, v: string, allowed: char -> bool)
    requires forall c :: IsAlnum(c) ==> allowed(c)
    requires Within(v, allowed) && (v != "" ==> EndsAlnum(v))
    ensures
      var r := Truncated(hash, v);
      0 < |r| <= MAX_LENGTH && EndsAlnum(r) && Within(r, allowed) && (NoDoubleHyphen(v) ==> NoDoubleHyphen(r))
  {
    if |v| > MAX_LENGTH {
      LongForm(hash, v);
      assert IsShortHash(ShortHash(hash, v));
      JoinedShape(v, TrimRight(v[..KEEP]), ShortHash(hash, v), allowed);
    }
  }

  lemma JoinedShape(v: string, p: string, h: string, allowed: char -> bool)
    requires forall c :: IsAlnum(c) ==> allowed(c)
    requires Within(v, allowed) && EndsAlnum(v) && p != "" && p <= v && IsShortHash(h) && p[|p| - 1] != '-'
    ensures
      var r := p + "-" + h;
      EndsAlnum(r) && Within(r, allowed) && (NoDoubleHyphen(v) ==> NoDoubleHyphen(r))
  {
    var r := p + "-" + h;
    assert forall m :: 0 <= m < |r| ==> r[m] == if m < |p| then v[m] else if m == |p| then '-' else h[m - |p| - 1];
    assert IsHex(h[|h| - 1]);
  }

  /** Every string gives a valid RFC 1123 label. */
  lemma DnsLabelIsValid(lower: Lower, hash: Hash, value: string)
    ensures
      var r := Dns1123LabelFromRaw(lower, hash, value);
      0 < |r| <= MAX_LENGTH && IsDnsLabel(r) && NoDoubleHyphen(r)
  {
    SanitizedShape(lower, IsAlnum, value);
    TruncatedShape(hash, Sanitized(lower, IsAlnum, value), IsAlnum);
  }

  /** Every string gives a valid label value. */
  lemma LabelValueIsValid(lower: Lower, hash: Hash, value: string)
    ensures 0 < |LabelValue(lower, hash, value)| && IsLabelValue(LabelValue(lower, hash, value))
  {
    SanitizedShape(lower, IsLabelChar, value);
    TruncatedShape(hash, Sanitized(lower, IsLabelChar, value), IsLabelChar);
  }

  /** The two fallbacks on the long path are never taken: something is always kept, and it is never empty. */
  lemma FallbacksUnreachable(lower: Lower, hash: Hash, allowed: char -> bool, value: string)
    requires forall c :: allowed(c) ==> IsLabelChar(c)
    requires |Sanitized(lower, allowed, value)| > MAX_LENGTH
    ensures
      var v := Sanitized(lower, allowed, value);
      MAX_LENGTH - |ShortHash(hash, v)| - 1 >= 1 && TrimRight(v[..KEEP]) != ""
  {
    SanitizedShape(lower, allowed, value);
    LongForm(hash, Sanitized(lower, allowed, value));
    assert IsShortHash(ShortHash(hash, Sanitized(lower, allowed, value)));
  }

  // ------------------------------------------------------------ fixed points

  lemma {:induction false} LoweredPlain(lower: Lower, s: string)
    requires forall i :: 0 <= i < |s| ==> IsLabelChar(s[i])
    ensures Lowered(lower, s) == s
  {
    if s != "" {
      LoweredPlain(lower, s[1..]);
    }
  }

  /** What has nothing to replace stays, and so does a lone hyphen. */
  lemma {:induction false} CollapsedPlain(s: string, allowed: char -> bool, last: bool)
    requires Within(s, allowed) && (allowed('-') || NoDoubleHyphen(s))
    requires last && s != "" ==> allowed(s[0])
    ensures Collapsed(s, allowed, last) == s
  {
    if s != "" {
      CollapsedPlain(s[1..], allowed, !allowed(s[0]));
    }
  }

  lemma SanitizedFixes(lower: Lower, allowed: char -> bool, s: string)
    requires forall c :: allowed(c) ==> IsLabelChar(c)
    requires Within(s, allowed) && EndsAlnum(s) && (allowed('-') || NoDoubleHyphen(s))
    ensures Sanitized(lower, allowed, s) == s
  {
    LoweredPlain(lower, s);
    CollapsedPlain(s, allowed, false);
  }

  /** A string is its own label exactly if it is a valid label without a double hyphen. */
  lemma DnsLabelFixedPoints(lower: Lower, hash: Hash, s: string)
    ensures Dns1123LabelFromRaw(lower, hash, s) == s <==> IsDnsLabel(s) && NoDoubleHyphen(s)
  {
    DnsLabelIsValid(lower, hash, s);
    if IsDnsLabel(s) && NoDoubleHyphen(s) {
      SanitizedFixes(lower, IsAlnum, s);
    }
  }

  /** A string is its own label value exactly if it is a valid lower-case one; so UIDs are. */
  lemma LabelValueFixedPoints(lower: Lower, hash: Hash, s: string)
    ensures LabelValue(lower, hash, s) == s <==> IsLabelValue(s)
  {
    LabelValueIsValid(lower, hash, s);
    if IsLabelValue(s) {
      SanitizedFixes(lower, IsLabelChar, s);
    }
  }

  /** Both are idempotent, on every string. */
  lemma Idempotent(lower: Lower, hash: Hash, value: string)
    ensures
      var r := Dns1123LabelFromRaw(lower, hash, value);
      Dns1123LabelFromRaw(lower, hash, r) == r
    ensures
      var r := LabelValue(lower, hash, value);
      LabelValue(lower, hash, r) == r
  {
    DnsLabelIsValid(lower, hash, value);
    DnsLabelFixedPoints(lower, hash, Dns1123LabelFromRaw(lower, hash, value));
    LabelValueIsValid(lower, hash, value);
    LabelValueFixedPoints(lower, hash, LabelValue(lower, hash, value));
  }

  /** Lower-casing comes first: what two strings share after it, they share in every identifier. */
  lemma CaseDoesNotMatter(lower: Lower, hash: Hash, s: string, t: string)
    requires Lowered(lower, s) == Lowered(lower, t)
    ensures Dns1123LabelFromRaw(lower, hash, s) == Dns1123LabelFromRaw(lower, hash, t)
    ensures LabelValue(lower, hash, s) == LabelValue(lower, hash, t)
  {
    hide Lowered, Truncated;
  }

  // -------------------------------------------------------------- the hash

  function Pow16(k: nat): (p: nat)
    ensures p > 0
  {
    if k == 0 then 1 else 16 * Pow16(k - 1)
  }

  lemma MultiplesAreFar(m: int, d: int)
    requires m > 0
    ensures d >= 1 ==> m * d >= m
    ensures d <= -1 ==> m * d <= -m
  {
  }

  lemma DivisionIsUnique(n: nat, m: nat, q: nat, t: nat)
    requires m > 0 && n == m * q + t && t < m
    ensures n / m == q && n % m == t
  {
    var d := n / m - q;
    assert m * d == m * (n / m) - m * q == t - n % m;
    MultiplesAreFar(m, d);
  }

  lemma LastDigit(n: nat, p: nat)
    requires p > 0
    ensures n % (16 * p) == 16 * (n / 16 % p) + n % 16
  {
    var a, t := n / 16, n % 16;
    assert n == (16 * p) * (a / p) + (16 * (a % p) + t);
    DivisionIsUnique(n, 16 * p, a / p, 16 * (a % p) + t);
  }

  /** `k` digits show exactly the remainder by 16 to the `k`. */
  lemma {:induction false} DigitsShowRemainder(m: nat, n: nat, k: nat)
    ensures HexDigits(m, k) == HexDigits(n, k) <==> m % Pow16(k) == n % Pow16(k)
  {
    if k > 0 {
      DigitsShowRemainder(m / 16, n / 16, k - 1);
      LastDigit(m, Pow16(k - 1));
      LastDigit(n, Pow16(k - 1));
      var x, y := HexDigits(m / 16, k - 1), HexDigits(n / 16, k - 1);
      var c, d := "0123456789abcdef"[m % 16], "0123456789abcdef"[n % 16];
      assert (x + [c])[..k - 1] == x && (y + [d])[..k - 1] == y && (x + [c])[k - 1] == c && (y + [d])[k - 1] == d;
      DigitsDiffer(m % 16, n % 16);
    }
  }

  lemma DigitsDiffer(a: nat, b: nat)
    requires a < 16 && b < 16
    ensures "0123456789abcdef"[a] == "0123456789abcdef"[b] <==> a == b
  {
  }

  // -------------------------------------------------------------- collisions

  predicate Long(v: string) { |v| > MAX_LENGTH }

  /** The readable prefix that a long string keeps. */
  function Kept(v: string): string
    requires Long(v)
  {
    TrimRight(v[..KEEP])
  }

  /** How two different sanitised strings can come out the same. */
  predicate Collide(hash: Hash, a: string, b: string) {
    || (a == "" && b == "x") || (a == "x" && b == "")
    || (Long(a) && Long(b) && hash(a) % Pow16(HASH_LENGTH) == hash(b) % Pow16(HASH_LENGTH) && Kept(a) == Kept(b))
    || (Long(a) && !Long(b) && b == Kept(a) + "-" + HexDigits(hash(a), HASH_LENGTH))
    || (!Long(a) && Long(b) && a == Kept(b) + "-" + HexDigits(hash(b), HASH_LENGTH))
  }

  /**
   Exactly when two different sanitised strings truncate to the same result. Two long ones do only
   if the hashes of the whole strings agree in what ten digits show, beside the prefix they keep.
   */
  lemma CollisionsExactly(hash: Hash, a: string, b: string)
    requires a != b && (a != "" ==> EndsAlnum(a)) && (b != "" ==> EndsAlnum(b))
    ensures Truncated(hash, a) == Truncated(hash, b) <==> Collide(hash, a, b)
  {
    if Long(a) { LongForm(hash, a); assert IsShortHash(ShortHash(hash, a)); }
    if Long(b) { LongForm(hash, b); assert IsShortHash(ShortHash(hash, b)); }
    if Long(a) && Long(b) && Truncated(hash, a) == Truncated(hash, b) {
      SplitsAtHash(Kept(a) + "-", ShortHash(hash, a), Kept(b) + "-", ShortHash(hash, b));
    }
    DigitsShowRemainder(hash(a), hash(b), HASH_LENGTH);
  }

  lemma SplitsAtHash(p: string, h: string, q: string, g: string)
    requires |h| == |g| && |p| > 0 && |q| > 0 && p + h == q + g
    ensures h == g && p[..|p| - 1] == q[..|q| - 1]
  {
    assert |p| == |q|;
    assert h == (p + h)[|p|..] && g == (q + g)[|q|..];
    assert p == (p + h)[..|p|] && q == (q + g)[..|q|];
  }

  // ------------------------------------------------------------ object names

  function ModelCacheNodeName(lower: Lower, hash: Hash, namespace: string, name: string, node: string): string {
    Dns1123LabelFromRaw(lower, hash, namespace + "-" + name + "-" + node)
  }

  function PvcNameForModelCache(lower: Lower, hash: Hash, name: string): string {
    Dns1123LabelFromRaw(lower, hash, "praesto-" + name)
  }

  function JobNameForModelCache(lower: Lower, hash: Hash, name: string): string {
    Dns1123LabelFromRaw(lower, hash, "praesto-download-" + name)
  }

  /**
   Two caches share their ModelCacheNode names on every node if their namespaces and names join
   to the same string; when the joined names need no change, this is the only way.
   */
  lemma NodeNamesCollide(lower: Lower, hash: Hash, ns: string, name: string, ns': string, name': string, node: string)
    ensures ns + "-" + name == ns' + "-" + name' ==>
      ModelCacheNodeName(lower, hash, ns, name, node) == ModelCacheNodeName(lower, hash, ns', name', node)
    ensures
      var raw, raw' := ns + "-" + name + "-" + node, ns' + "-" + name' + "-" + node;
      IsDnsLabel(raw) && NoDoubleHyphen(raw) && IsDnsLabel(raw') && NoDoubleHyphen(raw') ==>
        (ModelCacheNodeName(lower, hash, ns, name, node) == ModelCacheNodeName(lower, hash, ns', name', node)
         <==> ns + "-" + name == ns' + "-" + name')
  {
    var raw, raw' := ns + "-" + name + "-" + node, ns' + "-" + name' + "-" + node;
    DnsLabelFixedPoints(lower, hash, raw);
    DnsLabelFixedPoints(lower, hash, raw');
    if raw == raw' {
      assert ns + "-" + name == raw[..|raw| - |node| - 1] && ns' + "-" + name' == raw'[..|raw'| - |node| - 1];
    }
  }

  /**
   Two caches of a namespace share their PVC name exactly if their prefixed names are sanitised
   alike or collide; names that need no change never do.
   */
  lemma PvcNamesCollideExactly(lower: Lower, hash: Hash, name: string, name': string)
    ensures
      var a, b := Sanitized(lower, IsAlnum, "praesto-" + name), Sanitized(lower, IsAlnum, "praesto-" + name');
      PvcNameForModelCache(lower, hash, name) == PvcNameForModelCache(lower, hash, name')
      <==> a == b || Collide(hash, a, b)
    ensures
      var raw, raw' := "praesto-" + name, "praesto-" + name';
      IsDnsLabel(raw) && NoDoubleHyphen(raw) && IsDnsLabel(raw') && NoDoubleHyphen(raw') && name != name' ==>
        PvcNameForModelCache(lower, hash, name) != PvcNameForModelCache(lower, hash, name')
  {
    var raw, raw' := "praesto-" + name, "praesto-" + name';
    SanitizedShape(lower, IsAlnum, raw);
    SanitizedShape(lower, IsAlnum, raw');
    if Sanitized(lower, IsAlnum, raw) != Sanitized(lower, IsAlnum, raw') {
      CollisionsExactly(hash, Sanitized(lower, IsAlnum, raw), Sanitized(lower, IsAlnum, raw'));
    }
    DnsLabelFixedPoints(lower, hash, raw);
    DnsLabelFixedPoints(lower, hash, raw');
    assert name == raw[8..] && name' == raw'[8..];
  }

  /** The pair that shows it: cache `c` in `a-b` and cache `b-c` in `a`. */
  lemma ACollidingPair(lower: Lower, hash: Hash, node: string)
    ensures ModelCacheNodeName(lower, hash, "a-b", "c", node) == ModelCacheNodeName(lower, hash, "a", "b-c", node)
  {
    assert "a-b" + "-" + "c" == "a" + "-" + "b-c";
    NodeNamesCollide(lower, hash, "a-b", "c", "a", "b-c", node);
  }

  lemma {:induction false} CollapsedAlike(x: string, y: string, c: char, d: char, allowed: char -> bool, last: bool)
    requires !allowed(c) && !allowed(d)
    ensures Collapsed(x + [c] + y, allowed, last) == Collapsed(x + [d] + y, allowed, last)
  {
    var s, t := x + [c] + y, x + [d] + y;
    if x == "" {
      assert s[1..] == y && t[1..] == y;
    } else {
      assert s[1..] == x[1..] + [c] + y && t[1..] == x[1..] + [d] + y;
      CollapsedAlike(x[1..], y, c, d, allowed, !allowed(x[0]));
    }
  }

  /**
   PVC and Job names do not tell dots from hyphens, labels do: the PVC's label check sees that a
   PVC belongs to the other cache, and the Job, which has no such check, is shared.
   */
  lemma DotsAndHyphensCollide(lower: Lower, hash: Hash, x: string, y: string)
    ensures PvcNameForModelCache(lower, hash, x + "." + y) == PvcNameForModelCache(lower, hash, x + "-" + y)
    ensures JobNameForModelCache(lower, hash, x + "." + y) == JobNameForModelCache(lower, hash, x + "-" + y)
    ensures IsLabelValue(x + "." + y) ==>
      LabelValue(lower, hash, x + "." + y) != LabelValue(lower, hash, x + "-" + y)
  {
    RawCollide(lower, "praesto-", x, y);
    RawCollide(lower, "praesto-download-", x, y);
    if IsLabelValue(x + "." + y) {
      LabelsDiffer(lower, hash, x, y);
    }
  }

  lemma LabelsDiffer(lower: Lower, hash: Hash, x: string, y: string)
    requires IsLabelValue(x + "." + y)
    ensures LabelValue(lower, hash, x + "." + y) != LabelValue(lower, hash, x + "-" + y)
  {
    var s, t := x + "." + y, x + "-" + y;
    assert |t| == |s| && forall i :: 0 <= i < |t| ==> t[i] == if i == |x| then '-' else s[i];
    assert s[|x|] == '.' && t[|x|] == '-';
    LabelValueFixedPoints(lower, hash, s);
    LabelValueFixedPoints(lower, hash, t);
    assert IsLabelValue(t);
  }

  lemma RawCollide(lower: Lower, prefix: string, x: string, y: string)
    ensures Sanitized(lower, IsAlnum, prefix + (x + "." + y)) == Sanitized(lower, IsAlnum, prefix + (x + "-" + y))
  {
    hide Lowered;
    LoweredJoint(lower, prefix, x, '.', y);
    LoweredJoint(lower, prefix, x, '-', y);
    CollapsedAlike(Lowered(lower, prefix + x), Lowered(lower, y), '.', '-', IsAlnum, false);
  }

  /** Lower-casing works rune by rune, so it goes past a character that it leaves alone. */
  lemma LoweredJoint(lower: Lower, prefix: string, x: string, c: char, y: string)
    requires IsLabelChar(c)
    ensures Lowered(lower, prefix + (x + [c] + y)) == Lowered(lower, prefix + x) + [c] + Lowered(lower, y)
  {
    hide Lowered;
    var s := prefix + (x + [c] + y);
    var n := |prefix + x|;
    assert s == (prefix + x) + [c] + y;
    var r := Lowered(lower, prefix + x) + [c] + Lowered(lower, y);
    forall i | 0 <= i < |s| ensures Lowered(lower, s)[i] == r[i] {
      assert s[i] == if i < n then (prefix + x)[i] else if i == n then c else y[i - n - 1];
    }
  }
}
