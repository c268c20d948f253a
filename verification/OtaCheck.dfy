/**
 Which release an installation is offered (internal/updater/updater.go: Check, cmpTag, parseTag).
 */
module OtaCheck {
  import opened Wrappers

  const PREFIX := "hub-v"
  const INT_MAX: int := 0x7fff_ffff_ffff_ffff

  // ---- reading a tag ----

  predicate Digit(c: char) {
    '0' <= c <= '9'
  }

  predicate Digits(s: string) {
    forall i :: 0 <= i < |s| ==> Digit(s[i])
  }

  function Decimal(s: string): nat
    requires Digits(s)
  {
    if s == "" then 0 else 10 * Decimal(s[..|s| - 1]) + (s[|s| - 1] as int - '0' as int)
  }

  /** strconv.Atoi with its error dropped: zero for what is not a number, the nearest end out of range. */
  function Atoi(s: string): int {
    var body := if s != "" && (s[0] == '+' || s[0] == '-') then s[1..] else s;
    if body == "" || !Digits(body) then 0
    else if s[0] == '-' then if Decimal(body) > INT_MAX + 1 then -INT_MAX - 1 else 0 - Decimal(body)
    else if Decimal(body) > INT_MAX then INT_MAX else Decimal(body)
  }

  /** Where c first is, or the length. */
  function Until(s: string, c: char): (n: nat)
    ensures n <= |s| && c !in s[..n] && (n < |s| ==> s[n] == c)
  {
    if s == "" || s[0] == c then 0 else 1 + Until(s[1..], c)
  }

  datatype Version = Version(major: int, minor: int, patch: int)

  /** The part before the first dot, and what follows it. */
  function Head(s: string): string {
    s[..Until(s, '.')]
  }

  function Tail(s: string): Option<string> {
    if Until(s, '.') < |s| then Some(s[Until(s, '.') + 1..]) else None
  }

  function Number(s: Option<string>): int {
    if s.None? then 0 else Atoi(s.value)
  }

  function VersionOf(core: string): Version {
    var rest := Tail(core);
    if rest.None? then Version(Atoi(Head(core)), 0, 0)
    else Version(Atoi(Head(core)), Atoi(Head(rest.value)), Number(Tail(rest.value)))
  }

  function WithoutPrefix(tag: string): string {
    if PREFIX <= tag then tag[|PREFIX|..] else tag
  }

  function ParseTag(tag: string): Version {
    var t := WithoutPrefix(tag);
    VersionOf(t[..Until(t, '-')])
  }

  function Sign(a: int, b: int): int {
    if a < b then -1 else if a > b then 1 else 0
  }

  function Compare(a: Version, b: Version): int {
    if a.major != b.major then Sign(a.major, b.major)
    else if a.minor != b.minor then Sign(a.minor, b.minor)
    else Sign(a.patch, b.patch)
  }

  function CmpTag(a: string, b: string): int {
    Compare(ParseTag(a), ParseTag(b))
  }

  // ---- choosing ----

  /** A listed release; assets tells whether binary and checksums are both attached. */
  datatype Listed = Listed(tag: string, draft: bool, prerelease: bool, assets: bool)

  predicate Eligible(r: Listed, prereleases: bool) {
    !r.draft && PREFIX <= r.tag && (r.prerelease ==> prereleases) && r.assets
  }

  function Versions(raw: seq<Listed>): (v: seq<Version>)
    ensures |v| == |raw| && forall i :: 0 <= i < |raw| ==> v[i] == ParseTag(raw[i].tag)
  {
    seq(|raw|, i requires 0 <= i < |raw| => ParseTag(raw[i].tag))
  }

  function Allowed(raw: seq<Listed>, prereleases: bool): (ok: seq<bool>)
    ensures |ok| == |raw| && forall i :: 0 <= i < |raw| ==> ok[i] == Eligible(raw[i], prereleases)
  {
    seq(|raw|, i requires 0 <= i < |raw| => Eligible(raw[i], prereleases))
  }

  /** Newest among the first n allowed versions, the earliest of equals. */
  predicate Newest(v: seq<Version>, ok: seq<bool>, n: nat, best: Option<nat>)
    requires n <= |v| == |ok|
  {
    match best
    case None => forall i :: 0 <= i < n ==> !ok[i]
    case Some(b) =>
      && b < n && ok[b]
      && (forall i :: 0 <= i < n && ok[i] ==> Compare(v[i], v[b]) <= 0)
      && (forall i :: 0 <= i < b && ok[i] ==> Compare(v[i], v[b]) < 0)
  }

  lemma CompareIsOrder(a: Version, b: Version, c: Version)
    ensures Compare(a, b) == -Compare(b, a)
    ensures Compare(a, b) <= 0 && Compare(b, c) <= 0 ==> Compare(a, c) <= 0
    ensures Compare(a, b) < 0 && Compare(b, c) <= 0 ==> Compare(a, c) < 0
    ensures Compare(a, b) <= 0 && Compare(b, c) < 0 ==> Compare(a, c) < 0
    ensures Compare(a, b) == 0 <==> a == b
  {
  }

  /** Newer means a greater first number, or the same and a greater second, or the same two and a greater third. */
  lemma NewerByParts(a: Version, b: Version)
    ensures Compare(a, b) > 0 <==>
      a.major > b.major || (a.major == b.major && a.minor > b.minor)
      || (a.major == b.major && a.minor == b.minor && a.patch > b.patch)
    ensures Compare(a, b) < 0 <==> Compare(b, a) > 0
  {
  }

  lemma StaysNewest(v: seq<Version>, ok: seq<bool>, n: nat, best: Option<nat>)
    requires n < |v| == |ok| && Newest(v, ok, n, best) && ok[n]
    requires best.Some? ==> Compare(v[n], v[best.value]) > 0
    ensures Newest(v, ok, n + 1, Some(n))
  {
    forall i | 0 <= i < n && ok[i] ensures Compare(v[i], v[n]) < 0 {
      CompareIsOrder(v[n], v[best.value], v[n]);
      CompareIsOrder(v[i], v[best.value], v[n]);
    }
  }

  /** raw[n] beats the best so far. */
  predicate Beats(raw: seq<Listed>, n: nat, prereleases: bool, best: Option<nat>)
    requires n < |raw| && (best.Some? ==> best.value < |raw|)
  {
    Eligible(raw[n], prereleases) && (best.None? || CmpTag(raw[n].tag, raw[best.value].tag) > 0)
  }

  lemma CmpIsCompare(raw: seq<Listed>, i: nat, j: nat)
    requires i < |raw| && j < |raw|
    ensures CmpTag(raw[i].tag, raw[j].tag) == Compare(Versions(raw)[i], Versions(raw)[j])
  {
  }

  lemma NewestStep(v: seq<Version>, ok: seq<bool>, n: nat, best: Option<nat>, beats: bool)
    requires n < |v| == |ok| && Newest(v, ok, n, best)
    requires beats <==> ok[n] && (best.None? || Compare(v[n], v[best.value]) > 0)
    ensures Newest(v, ok, n + 1, if beats then Some(n) else best)
  {
    if beats {
      StaysNewest(v, ok, n, best);
    }
  }

  lemma BeatsIsNewest(raw: seq<Listed>, n: nat, prereleases: bool, best: Option<nat>)
    requires n < |raw| && Newest(Versions(raw), Allowed(raw, prereleases), n, best)
    ensures Newest(Versions(raw), Allowed(raw, prereleases), n + 1, if Beats(raw, n, prereleases, best) then Some(n) else best)
  {
    if best.Some? { CmpIsCompare(raw, n, best.value); }
    NewestStep(Versions(raw), Allowed(raw, prereleases), n, best, Beats(raw, n, prereleases, best));
  }

  method SelectNewest(raw: seq<Listed>, prereleases: bool) returns (best: Option<nat>)
    ensures Newest(Versions(raw), Allowed(raw, prereleases), |raw|, best)
  {
    best := None;
    for n := 0 to |raw|
      invariant Newest(Versions(raw), Allowed(raw, prereleases), n, best)
    {
      BeatsIsNewest(raw, n, prereleases, best);
      if Beats(raw, n, prereleases, best) { best := Some(n); }
    }
  }

  lemma NoneIsNewer(v: seq<Version>, ok: seq<bool>, b: nat, running: Version)
    requires |v| == |ok| && Newest(v, ok, |v|, Some(b)) && Compare(v[b], running) <= 0
    ensures forall i :: 0 <= i < |v| && ok[i] ==> Compare(v[i], running) <= 0
  {
    forall i | 0 <= i < |v| && ok[i] ensures Compare(v[i], running) <= 0 {
      CompareIsOrder(v[i], v[b], running);
    }
  }

  /**
   The release to offer: a newest allowed one, when it is newer than what runs. None means that no
   allowed release is newer than what runs; a development build takes any.
   */
  predicate IsOffer(raw: seq<Listed>, prereleases: bool, current: string, offer: Option<nat>) {
    match offer
    case Some(b) =>
      && Newest(Versions(raw), Allowed(raw, prereleases), |raw|, offer)
      && (current != "dev" ==> Compare(Versions(raw)[b], ParseTag(current)) > 0)
    case None =>
      forall i :: 0 <= i < |raw| && Allowed(raw, prereleases)[i] ==>
        current != "dev" && Compare(Versions(raw)[i], ParseTag(current)) <= 0
  }

  method Check(raw: seq<Listed>, prereleases: bool, current: string) returns (offer: Option<nat>)
    ensures IsOffer(raw, prereleases, current, offer)
  {
    var best := SelectNewest(raw, prereleases);
    if best.None? { return None; }
    if current != "dev" && CmpTag(raw[best.value].tag, current) <= 0 {
      NoneIsNewer(Versions(raw), Allowed(raw, prereleases), best.value, ParseTag(current));
      return None;
    }
    return best;
  }

  /** What is offered is published, complete, one of ours, and a prerelease only when those are asked for. */
  lemma OfferIsAllowed(raw: seq<Listed>, prereleases: bool, current: string, b: nat)
    requires IsOffer(raw, prereleases, current, Some(b))
    ensures b < |raw| && !raw[b].draft && raw[b].assets && |raw[b].tag| >= 5 && raw[b].tag[..5] == "hub-v"
    ensures raw[b].prerelease ==> prereleases
  {
    assert Allowed(raw, prereleases)[b];
  }

  /** And something is offered whenever such a release is newer than what runs. */
  lemma NewerIsOffered(raw: seq<Listed>, prereleases: bool, current: string, offer: Option<nat>, i: nat)
    requires IsOffer(raw, prereleases, current, offer) && i < |raw|
    requires !raw[i].draft && raw[i].assets && "hub-v" <= raw[i].tag && (!raw[i].prerelease || prereleases)
    requires current == "dev" || CmpTag(raw[i].tag, current) > 0
    ensures offer.Some? && CmpTag(raw[i].tag, raw[offer.value].tag) <= 0
  {
    assert Allowed(raw, prereleases)[i];
  }

  // ---- tags read back ----

  function Written(n: nat): (s: string)
    ensures |s| > 0 && Digits(s)
  {
    if n < 10 then [('0' as int + n) as char] else Written(n / 10) + [('0' as int + n % 10) as char]
  }

  lemma {:induction false} WrittenIsRead(n: nat)
    ensures Decimal(Written(n)) == n
  {
    var s := Written(n);
    if n < 10 {
      assert Decimal(s[..0]) == 0;
    } else {
      WrittenIsRead(n / 10);
      assert s[..|s| - 1] == Written(n / 10);
    }
  }

  lemma NumberIsRead(n: nat)
    requires n <= INT_MAX
    ensures Atoi(Written(n)) == n
  {
    WrittenIsRead(n);
    assert Digit(Written(n)[0]);
  }

  lemma {:induction false} UntilIs(s: string, c: char, n: nat)
    requires n <= |s| && c !in s[..n] && (n < |s| ==> s[n] == c)
    ensures Until(s, c) == n
  {
    if n > 0 {
      assert s[0] in s[..n];
      assert s[1..][..n - 1] == s[..n][1..];
      UntilIs(s[1..], c, n - 1);
    }
  }

  function Core(v: Version): string
    requires v.major >= 0 && v.minor >= 0 && v.patch >= 0
  {
    Written(v.major) + "." + Written(v.minor) + "." + Written(v.patch)
  }

  lemma ThreePartsAreRead(a: string, b: string, c: string)
    requires Digits(a) && Digits(b)
    ensures VersionOf(a + "." + b + "." + c) == Version(Atoi(a), Atoi(b), Atoi(c))
  {
    var rest := b + "." + c;
    assert a + "." + b + "." + c == a + "." + rest;
    HeadAndTail(a, rest);
    HeadAndTail(b, c);
  }

  lemma CoreIsRead(v: Version)
    requires 0 <= v.major <= INT_MAX && 0 <= v.minor <= INT_MAX && 0 <= v.patch <= INT_MAX
    ensures VersionOf(Core(v)) == v && '-' !in Core(v)
  {
    var a, b, c := Written(v.major), Written(v.minor), Written(v.patch);
    NumberIsRead(v.major);
    NumberIsRead(v.minor);
    NumberIsRead(v.patch);
    ThreePartsAreRead(a, b, c);
    NoHyphen(a, b, c);
  }

  lemma NoHyphen(a: string, b: string, c: string)
    requires Digits(a) && Digits(b) && Digits(c)
    ensures '-' !in a + "." + b + "." + c
  {
  }

  lemma HeadAndTail(a: string, rest: string)
    requires Digits(a)
    ensures Head(a + "." + rest) == a && Tail(a + "." + rest) == Some(rest)
  {
    var s := a + "." + rest;
    assert s[..|a|] == a;
    UntilIs(s, '.', |a|);
  }

  /** Numbers that are left out, or are none, count as zero. */
  lemma ShortTags(n: nat, k: nat)
    requires n <= INT_MAX && k <= INT_MAX
    ensures VersionOf(Written(n)) == Version(n, 0, 0)
    ensures VersionOf(Written(n) + "." + Written(k)) == Version(n, k, 0)
    ensures VersionOf("") == Version(0, 0, 0)
  {
    var a, b := Written(n), Written(k);
    NumberIsRead(n);
    NumberIsRead(k);
    NoDot(a);
    NoDot(b);
    HeadAndTail(a, b);
    assert a[..|a|] == a && b[..|b|] == b;
  }

  lemma NoDot(s: string)
    requires Digits(s)
    ensures Until(s, '.') == |s| && Head(s) == s && Tail(s) == None
  {
    assert s[..|s|] == s;
    UntilIs(s, '.', |s|);
  }

  lemma SuffixIsDropped(core: string, rest: string)
    requires '-' !in core && (rest == "" || rest[0] == '-')
    ensures ParseTag(PREFIX + core + rest) == VersionOf(core)
  {
    var tag := PREFIX + core + rest;
    assert tag[|PREFIX|..] == core + rest;
    assert (core + rest)[..|core|] == core;
    UntilIs(core + rest, '-', |core|);
  }

  /** Numbers that fit the machine's integers. */
  predicate Numbered(v: Version) {
    0 <= v.major <= INT_MAX && 0 <= v.minor <= INT_MAX && 0 <= v.patch <= INT_MAX
  }

  /** The tag of a version, with a suffix after a hyphen for a candidate. */
  function Tagged(v: Version, suffix: Option<string>): (tag: string)
    requires Numbered(v)
  {
    PREFIX + Core(v) + (if suffix.Some? then "-" + suffix.value else "")
  }

  lemma TagIsRead(v: Version, suffix: Option<string>)
    requires Numbered(v)
    ensures ParseTag(Tagged(v, suffix)) == v
  {
    CoreIsRead(v);
    SuffixIsDropped(Core(v), if suffix.Some? then "-" + suffix.value else "");
  }

  /** Tags of three plain numbers compare as the numbers do, whatever suffixes follow a hyphen. */
  lemma TagsOrderByNumber(v: Version, suffix: Option<string>, w: Version, suffix': Option<string>)
    requires Numbered(v) && Numbered(w)
    ensures CmpTag(Tagged(v, suffix), Tagged(w, suffix')) == Compare(v, w)
  {
    TagIsRead(v, suffix);
    TagIsRead(w, suffix');
  }

  /** The allowed releases carry such tags. */
  predicate ListedByNumber(raw: seq<Listed>, prereleases: bool, v: seq<Version>, suffixes: seq<Option<string>>) {
    && |v| == |suffixes| == |raw|
    && forall i :: 0 <= i < |raw| && Eligible(raw[i], prereleases) ==> Numbered(v[i]) && raw[i].tag == Tagged(v[i], suffixes[i])
  }

  lemma RunningIsRelease(running: Version, suffix: Option<string>)
    requires Numbered(running)
    ensures Tagged(running, suffix) != "dev"
  {
    assert Tagged(running, suffix)[0] == 'h';
  }

  /**
   So a release is offered exactly when an allowed one has greater numbers than what runs, and then one
   with the greatest: suffixes never count, on either side.
   */
  lemma OffersGoByNumber(raw: seq<Listed>, prereleases: bool, v: seq<Version>, suffixes: seq<Option<string>>,
                         running: Version, suffix: Option<string>, offer: Option<nat>)
    requires ListedByNumber(raw, prereleases, v, suffixes) && Numbered(running)
    requires IsOffer(raw, prereleases, Tagged(running, suffix), offer)
    ensures offer.Some? <==>
              exists i :: 0 <= i < |raw| && Eligible(raw[i], prereleases) && Compare(v[i], running) > 0
    ensures offer.Some? ==>
              && offer.value < |raw| && Eligible(raw[offer.value], prereleases) && Compare(v[offer.value], running) > 0
              && forall i :: 0 <= i < |raw| && Eligible(raw[i], prereleases) ==> Compare(v[i], v[offer.value]) <= 0
  {
    TagIsRead(running, suffix);
    RunningIsRelease(running, suffix);
    forall i | 0 <= i < |raw| && Eligible(raw[i], prereleases) ensures Versions(raw)[i] == v[i] {
      TagIsRead(v[i], suffixes[i]);
    }
    if offer.None? {
      forall i | 0 <= i < |raw| && Eligible(raw[i], prereleases) ensures Compare(v[i], running) <= 0 {
        assert Allowed(raw, prereleases)[i];
      }
    }
  }

  /** A candidate counts as its final release: while one runs, no tag with its numbers is ever offered. */
  lemma CandidateHidesItsRelease(raw: seq<Listed>, prereleases: bool, running: Version, suffix: string,
                                 offered: Option<string>, offer: Option<nat>)
    requires Numbered(running) && IsOffer(raw, prereleases, Tagged(running, Some(suffix)), offer)
    ensures offer.Some? ==> raw[offer.value].tag != Tagged(running, offered)
  {
    if offer.Some? && raw[offer.value].tag == Tagged(running, offered) {
      TagIsRead(running, Some(suffix));
      TagIsRead(running, offered);
      RunningIsRelease(running, Some(suffix));
      CompareIsOrder(running, running, running);
      assert false;
    }
  }
}
