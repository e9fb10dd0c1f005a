/** Vault addresses: the free slug near a base, and the migration from globally unique slugs to slugs unique per
    account (mindin/auth/hosted_vaults.py:18-23, 143-162, 165-186, 309-320). */
module Slugs {
  import opened Texts

  type AccountId = string
  type VaultId = string

  const SLUG_MAX: nat := 32
  const FALLBACK_SLUG := "vault"
  const FIRST_VAULT_SLUG := "notes"
  const RESERVED: set<string> := {"new"}

  predicate IsLower(c: char) {
    'a' <= c <= 'z'
  }

  predicate IsDigit(c: char) {
    '0' <= c <= '9'
  }

  predicate IsSlugText(s: string) {
    forall i :: 0 <= i < |s| ==> IsLower(s[i]) || IsDigit(s[i])
  }

  predicate ValidSlug(s: string) {
    1 <= |s| <= SLUG_MAX && IsLower(s[0]) && IsSlugText(s) && s !in RESERVED
  }

  // ---- slugify ----

  /** The letters and digits of a text already folded to lower-case ASCII. */
  function Kept(s: string): (kept: string)
    ensures IsSlugText(kept)
  {
    if s == "" then "" else (if IsLower(s[0]) || IsDigit(s[0]) then [s[0]] else "") + Kept(s[1..])
  }

  function WithoutLeadingDigits(s: string): (rest: string)
    ensures IsSlugText(s) ==> IsSlugText(rest) && (rest == "" || IsLower(rest[0]))
  {
    if s != "" && IsDigit(s[0]) then WithoutLeadingDigits(s[1..]) else s
  }

  function Truncated(s: string, length: nat): string {
    if |s| <= length then s else s[..length]
  }

  /** `fold` is the Unicode normalisation to lower-case ASCII. */
  function Slugify(fold: string -> string, text: string): (slug: string)
    ensures slug == "" || (IsLower(slug[0]) && IsSlugText(slug) && |slug| <= SLUG_MAX)
  {
    Truncated(WithoutLeadingDigits(Kept(fold(text))), SLUG_MAX)
  }

  function StemOf(fold: string -> string, base: string): (stem: string)
    ensures 1 <= |stem| <= SLUG_MAX && IsLower(stem[0]) && IsSlugText(stem)
  {
    if Slugify(fold, base) != "" then Slugify(fold, base) else FALLBACK_SLUG
  }

  /** Characters of a text, in order. */
  predicate IsWithin(part: string, whole: string) {
    part == ""
    || (whole != "" && if part[0] == whole[0] then IsWithin(part[1..], whole[1..]) else IsWithin(part, whole[1..]))
  }

  /** Nothing is left out but what is no letter and no digit. */
  lemma {:induction false} KeptIs(s: string)
    ensures IsSlugText(s) ==> Kept(s) == s
    ensures IsWithin(Kept(s), s)
    ensures Kept(s) == "" <==> forall i :: 0 <= i < |s| ==> !IsLower(s[i]) && !IsDigit(s[i])
  {
    if s != "" {
      var rest := Kept(s[1..]);
      KeptIs(s[1..]);
      assert s == [s[0]] + s[1..];
      if IsLower(s[0]) || IsDigit(s[0]) {
        assert Kept(s)[1..] == rest;
      } else {
        assert Kept(s) == rest;
      }
    }
  }

  /** Only the digits in front are dropped. */
  lemma {:induction false} LeadingDigits(s: string) returns (n: nat)
    ensures n <= |s| && s[n..] == WithoutLeadingDigits(s)
    ensures forall i :: 0 <= i < n ==> IsDigit(s[i])
    ensures n < |s| ==> !IsDigit(s[n])
  {
    n := 0;
    if s != "" && IsDigit(s[0]) {
      var m := LeadingDigits(s[1..]);
      n := m + 1;
      assert s[1..][m..] == s[n..];
      forall i | 0 <= i < n ensures IsDigit(s[i]) {
        assert i > 0 ==> s[i] == s[1..][i - 1];
      }
    }
  }

  /** A slug is made of the letters and digits of the folded text, in order: without the digits before the first letter,
      and cut at the limit. So a text that already is a slug stays as it is. */
  lemma SlugIsOfTheText(fold: string -> string, text: string)
    ensures var slug, kept := Slugify(fold, text), Kept(fold(text));
      && (exists i :: 0 <= i <= |kept| && slug <= kept[i..] && (forall j :: 0 <= j < i ==> IsDigit(kept[j]))
                      && (slug == kept[i..] || |slug| == SLUG_MAX))
      && (fold(text) == text && IsStem(text) ==> slug == text)
  {
    var kept := Kept(fold(text));
    var rest := WithoutLeadingDigits(kept);
    KeptIs(fold(text));
    var n := LeadingDigits(kept);
    assert Truncated(rest, SLUG_MAX) <= rest == kept[n..];
  }

  // ---- the search ----

  predicate IsStem(stem: string) {
    1 <= |stem| <= SLUG_MAX && IsLower(stem[0]) && IsSlugText(stem)
  }

  /** The names tried: the stem itself, then the stem cut so that the number still fits. */
  function Candidate(stem: string, number: nat): string
    requires number == 1 || |Decimal(number)| <= SLUG_MAX
  {
    if number == 1 then stem else Truncated(stem, SLUG_MAX - |Decimal(number)|) + Decimal(number)
  }

  predicate Usable(taken: set<string>, slug: string) {
    ValidSlug(slug) && slug !in taken
  }

  /** Ten to the thirty-first: below it numbers have at most 31 digits. */
  const LIMIT: nat := 10_000_000_000_000_000_000_000_000_000_000

  lemma FiveMoreDigits(d: nat)
    ensures Pow10(d + 5) == 100_000 * Pow10(d)
  {
    assert Pow10(d + 5) == 10 * Pow10(d + 4) == 100 * Pow10(d + 3) == 1_000 * Pow10(d + 2) == 10_000 * Pow10(d + 1);
  }

  lemma LimitIsAPower()
    ensures LIMIT == Pow10(31) && LIMIT - ROOM == Pow10(30)
  {
    FiveMoreDigits(0);
    FiveMoreDigits(5);
    FiveMoreDigits(10);
    FiveMoreDigits(15);
    FiveMoreDigits(20);
    FiveMoreDigits(25);
    var d := 30;
    assert Pow10(d + 1) == 10 * Pow10(d);
  }

  lemma FitsBelowLimit(number: nat)
    requires number < LIMIT
    ensures |Decimal(number)| <= SLUG_MAX - 1
  {
    LimitIsAPower();
    DecimalLength(number, 31);
  }

  /** The first usable candidate. */
  ghost predicate FirstUsable(taken: set<string>, stem: string, slug: string) {
    exists number: nat :: 1 <= number < LIMIT && Tried(stem, number) == slug && Usable(taken, slug)
      && forall m: nat :: 1 <= m < number ==> !Usable(taken, Tried(stem, m))
  }

  /** A candidate, for every number. */
  function Tried(stem: string, number: nat): string {
    if number == 1 || |Decimal(number)| <= SLUG_MAX then Candidate(stem, number) else ""
  }

  lemma CandidateIsValid(stem: string, number: nat)
    requires IsStem(stem) && 2 <= number < LIMIT
    ensures ValidSlug(Tried(stem, number))
  {
    FitsBelowLimit(number);
    var slug := Tried(stem, number);
    assert slug[0] == stem[0];
    assert IsDigit(slug[|slug| - 1]);
  }

  /** Candidates with numbers of one length differ, however the stem was cut. */
  lemma SameLengthDiffer(stem: string, m: nat, n: nat)
    requires 2 <= m < LIMIT && 2 <= n < LIMIT && m != n && |Decimal(m)| == |Decimal(n)|
    ensures Tried(stem, m) != Tried(stem, n)
  {
    FitsBelowLimit(m);
    FitsBelowLimit(n);
    var d := |Decimal(m)|;
    var head := Truncated(stem, SLUG_MAX - d);
    if Tried(stem, m) == Tried(stem, n) {
      assert Tried(stem, m)[|head|..] == Decimal(m) && Tried(stem, n)[|head|..] == Decimal(n);
      DecimalInjective(m, n);
    }
  }

  /** A slug is one to 32 lower-case letters and digits, the first a letter, and not a page's own name. */
  lemma SlugsAreSafe(s: string)
    ensures ValidSlug(s) <==>
            && 1 <= |s| <= 32 && 'a' <= s[0] <= 'z' && s != "new"
            && forall i :: 0 <= i < |s| ==> 'a' <= s[i] <= 'z' || '0' <= s[i] <= '9'
  {
  }

  /** A base that is usable as it stands is taken, and a base without letters stands for the fallback. */
  lemma FreeStemIsTaken(fold: string -> string, taken: set<string>, base: string, slug: string)
    requires FirstUsable(taken, StemOf(fold, base), slug)
    ensures Usable(taken, StemOf(fold, base)) ==> slug == StemOf(fold, base)
    ensures StemOf(fold, base) == if Slugify(fold, base) == "" then "vault" else Slugify(fold, base)
  {
    assert Tried(StemOf(fold, base), 1) == StemOf(fold, base);
  }

  // ---- the search ends ----

  /** How many numbers have 31 digits. */
  const ROOM: nat := 9_000_000_000_000_000_000_000_000_000_000

  ghost function TriedFrom(stem: string, first: nat, count: nat): set<string> {
    if count == 0 then {} else TriedFrom(stem, first, count - 1) + {Tried(stem, first + count - 1)}
  }

  lemma {:induction false} TriedFromHas(stem: string, first: nat, count: nat, slug: string)
    ensures slug in TriedFrom(stem, first, count) <==>
            exists n: nat :: first <= n < first + count && Tried(stem, n) == slug
  {
    if count > 0 {
      TriedFromHas(stem, first, count - 1, slug);
      if n: nat :| first <= n < first + count && Tried(stem, n) == slug {
        assert n == first + count - 1 || n < first + (count - 1);
      }
    }
  }

  lemma HasThirtyOneDigits(n: nat)
    requires LIMIT - ROOM <= n < LIMIT
    ensures |Decimal(n)| == 31 && n >= 2
  {
    LimitIsAPower();
    DecimalLength(n, 31);
    DecimalLength(n, 30);
  }

  lemma {:induction false} TriedFromSize(stem: string, first: nat, count: nat)
    requires LIMIT - ROOM <= first && first + count <= LIMIT
    ensures |TriedFrom(stem, first, count)| == count
  {
    if count > 0 {
      var last := first + count - 1;
      TriedFromSize(stem, first, count - 1);
      TriedFromHas(stem, first, count - 1, Tried(stem, last));
      HasThirtyOneDigits(last);
      forall n: nat | first <= n < last ensures Tried(stem, n) != Tried(stem, last) {
        HasThirtyOneDigits(n);
        SameLengthDiffer(stem, n, last);
      }
    }
  }

  lemma {:induction false} SmallerLeavesOne(a: set<string>, b: set<string>) returns (left: string)
    requires |b| < |a|
    ensures left in a && left !in b
  {
    var x :| x in a;
    if x in b {
      left := SmallerLeavesOne(a - {x}, b - {x});
    } else {
      left := x;
    }
  }

  /** Truncation makes candidates of different lengths collide, but those of 31 digits are all different, so one of
      them is free. */
  lemma SomeNumberIsUsable(taken: set<string>, stem: string) returns (number: nat)
    requires IsStem(stem) && |taken| < ROOM
    ensures 2 <= number < LIMIT && Usable(taken, Tried(stem, number))
  {
    var first := LIMIT - ROOM;
    TriedFromSize(stem, first, ROOM);
    var slug := SmallerLeavesOne(TriedFrom(stem, first, ROOM), taken);
    TriedFromHas(stem, first, ROOM, slug);
    number :| first <= number < first + ROOM && Tried(stem, number) == slug;
    HasThirtyOneDigits(number);
    CandidateIsValid(stem, number);
  }

  /** A valid slug that is not taken: the first usable candidate, for any base and any set of fewer than nine times
      ten to the thirtieth slugs. */
  method FreeSlug(fold: string -> string, taken: set<string>, base: string) returns (slug: string)
    requires |taken| < ROOM
    ensures FirstUsable(taken, StemOf(fold, base), slug)
    ensures ValidSlug(slug) && slug !in taken
  {
    var stem := StemOf(fold, base);
    ghost var last := SomeNumberIsUsable(taken, stem);
    var number: nat := 1;
    slug := stem;
    while !ValidSlug(slug) || slug in taken
      invariant 1 <= number <= last && slug == Tried(stem, number)
      invariant forall m: nat :: 1 <= m < number ==> !Usable(taken, Tried(stem, m))
      decreases last - number
    {
      number := number + 1;
      FitsBelowLimit(number);
      slug := Truncated(stem, SLUG_MAX - |Decimal(number)|) + Decimal(number);
    }
  }

  // ---- the migration ----

  datatype Row = Row(owner: AccountId, name: string, slug: string)

  type Vaults = map<VaultId, Row>
  type Members = set<(VaultId, AccountId)>

  predicate ReachedBy(vaults: Vaults, members: Members, id: VaultId, account: AccountId) {
    id in vaults && (vaults[id].owner == account || (id, account) in members)
  }

  function HoldersOf(vaults: Vaults, members: Members, id: VaultId): set<AccountId>
    requires id in vaults
  {
    {vaults[id].owner} + set m | m in members && m.0 == id :: m.1
  }

  lemma HoldersReach(vaults: Vaults, members: Members, id: VaultId, account: AccountId)
    requires id in vaults
    ensures account in HoldersOf(vaults, members, id) <==> ReachedBy(vaults, members, id, account)
  {
    assert (id, account).0 == id;
  }

  /** The slugs of the vaults that some of the accounts reach, apart from one vault. */
  function TakenSlugs(vaults: Vaults, members: Members, accounts: set<AccountId>, other: VaultId): set<string> {
    set id, a | id in vaults && a in accounts && id != other && ReachedBy(vaults, members, id, a) :: vaults[id].slug
  }

  /** No account reaches two vaults with one slug. */
  ghost predicate DistinctPerHolder(vaults: Vaults, members: Members) {
    forall v, w, a | ReachedBy(vaults, members, v, a) && ReachedBy(vaults, members, w, a) && v != w
      :: vaults[v].slug != vaults[w].slug
  }

  predicate GloballyUnique(vaults: Vaults) {
    forall v, w | v in vaults && w in vaults && v != w :: vaults[v].slug != vaults[w].slug
  }

  lemma ReslugKeepsDistinct(vaults: Vaults, members: Members, id: VaultId, slug: string)
    requires id in vaults && DistinctPerHolder(vaults, members)
    requires slug !in TakenSlugs(vaults, members, HoldersOf(vaults, members, id), id)
    ensures DistinctPerHolder(vaults[id := vaults[id].(slug := slug)], members)
  {
    var after := vaults[id := vaults[id].(slug := slug)];
    forall v, w, a | ReachedBy(after, members, v, a) && ReachedBy(after, members, w, a) && v != w
      ensures after[v].slug != after[w].slug
    {
      assert ReachedBy(vaults, members, v, a) && ReachedBy(vaults, members, w, a);
      var other := if v == id then w else v;
      if v == id || w == id {
        assert a in HoldersOf(vaults, members, id);
        assert vaults[other].slug in TakenSlugs(vaults, members, HoldersOf(vaults, members, id), id);
      }
    }
  }

  lemma {:induction false} TakenIsSmall(vaults: Vaults, slugs: set<string>)
    requires forall slug :: slug in slugs ==> exists id :: id in vaults && vaults[id].slug == slug
    ensures |slugs| <= |vaults|
  {
    if slugs != {} {
      var slug :| slug in slugs;
      var id :| id in vaults && vaults[id].slug == slug;
      forall other | other in slugs - {slug} ensures exists j :: j in vaults - {id} && vaults[j].slug == other {
        var j :| j in vaults && vaults[j].slug == other;
        assert j in vaults - {id};
      }
      TakenIsSmall(vaults - {id}, slugs - {slug});
    }
  }

  function Owners(vaults: Vaults, order: seq<VaultId>): (owners: seq<AccountId>)
    requires forall i :: 0 <= i < |order| ==> order[i] in vaults
    ensures |owners| == |order| && forall i :: 0 <= i < |order| ==> owners[i] == vaults[order[i]].owner
  {
    seq(|order|, i requires 0 <= i < |order| => vaults[order[i]].owner)
  }

  /** The first vault of an account takes the standard address, the others are called after their names. */
  predicate IsBase(vaults: Vaults, order: seq<VaultId>, i: nat, base: string)
    requires i < |order| && forall k :: 0 <= k < |order| ==> order[k] in vaults
  {
    base == if vaults[order[i]].owner in Owners(vaults, order)[..i] then vaults[order[i]].name else FIRST_VAULT_SLUG
  }

  /** The slug is one of the names tried for a base. */
  ghost predicate IsTried(stem: string, slug: string) {
    exists number: nat :: 1 <= number < LIMIT && Tried(stem, number) == slug
  }

  /** The slug is called after the vault, or after the standard address when no vault of that owner comes before it. */
  ghost predicate NearBase(fold: string -> string, vaults: Vaults, order: seq<VaultId>, i: nat, slug: string)
    requires i < |order| && forall k :: 0 <= k < |order| ==> order[k] in vaults
  {
    var first := forall j :: 0 <= j < i ==> vaults[order[j]].owner != vaults[order[i]].owner;
    IsTried(StemOf(fold, if first then "notes" else vaults[order[i]].name), slug)
  }

  lemma BaseIsNear(fold: string -> string, vaults: Vaults, order: seq<VaultId>, i: nat, base: string, slug: string)
    requires i < |order| && forall k :: 0 <= k < |order| ==> order[k] in vaults
    requires IsBase(vaults, order, i, base) && IsTried(StemOf(fold, base), slug)
    ensures NearBase(fold, vaults, order, i, slug)
  {
    var owners := Owners(vaults, order);
    assert vaults[order[i]].owner in owners[..i] <==> exists j :: 0 <= j < i && owners[j] == vaults[order[i]].owner;
  }

  /** Every vault that has changed has a slug near its base. */
  ghost predicate MendedNear(fold: string -> string, vaults: Vaults, order: seq<VaultId>, count: nat, now: Vaults)
    requires count <= |order| && forall k :: 0 <= k < |order| ==> order[k] in vaults
  {
    now.Keys == vaults.Keys && forall id :: id in now && now[id] != vaults[id] ==>
      exists k :: 0 <= k < count && order[k] == id && NearBase(fold, vaults, order, k, now[id].slug)
  }

  predicate ValidSoFar(order: seq<VaultId>, count: nat, now: Vaults)
    requires count <= |order|
  {
    forall k :: 0 <= k < count ==> order[k] in now && ValidSlug(now[order[k]].slug)
  }

  lemma OneMoreMended(fold: string -> string, vaults: Vaults, order: seq<VaultId>, i: nat, was: Vaults, now: Vaults)
    requires i < |order| && forall k :: 0 <= k < |order| ==> order[k] in vaults
    requires MendedNear(fold, vaults, order, i, was) && now.Keys == was.Keys
    requires forall other :: other in was && other != order[i] ==> now[other] == was[other]
    requires now[order[i]] == was[order[i]] || NearBase(fold, vaults, order, i, now[order[i]].slug)
    requires ValidSoFar(order, i, was) && ValidSlug(now[order[i]].slug)
    ensures MendedNear(fold, vaults, order, i + 1, now) && ValidSoFar(order, i + 1, now)
  {
  }

  method Bases(vaults: Vaults, order: seq<VaultId>) returns (bases: seq<string>)
    requires forall i :: 0 <= i < |order| ==> order[i] in vaults
    ensures |bases| == |order| && forall i :: 0 <= i < |order| ==> IsBase(vaults, order, i, bases[i])
  {
    var seen: set<AccountId> := {};
    ghost var owners := Owners(vaults, order);
    bases := [];
    for i := 0 to |order|
      invariant |bases| == i && forall k :: 0 <= k < i ==> IsBase(vaults, order, k, bases[k])
      invariant forall a :: a in seen <==> a in owners[..i]
    {
      var vault := vaults[order[i]];
      bases := bases + [if vault.owner in seen then vault.name else FIRST_VAULT_SLUG];
      seen := seen + {vault.owner};
      assert owners[..i + 1] == owners[..i] + [vault.owner];
    }
  }

  /** Gives one vault a slug that no other vault reached by its holders has. */
  method Reslug(fold: string -> string, vaults: Vaults, members: Members, id: VaultId, base: string)
    returns (after: Vaults)
    requires id in vaults && DistinctPerHolder(vaults, members) && |vaults| < ROOM
    ensures id in after && after == vaults[id := vaults[id].(slug := after[id].slug)] && ValidSlug(after[id].slug)
    ensures IsTried(StemOf(fold, base), after[id].slug)
    ensures DistinctPerHolder(after, members)
  {
    var taken := TakenSlugs(vaults, members, HoldersOf(vaults, members, id), id);
    TakenIsSmall(vaults, taken);
    var slug := FreeSlug(fold, taken, base);
    ReslugKeepsDistinct(vaults, members, id, slug);
    after := vaults[id := vaults[id].(slug := slug)];
  }

  /** A vault is as it was, or had an invalid slug and has a valid one. */
  predicate Mended(was: Row, now: Row) {
    now == was || (!ValidSlug(was.slug) && ValidSlug(now.slug) && now == was.(slug := now.slug))
  }

  predicate AllMended(was: Vaults, now: Vaults) {
    was.Keys == now.Keys && forall id :: id in was ==> Mended(was[id], now[id])
  }

  /** Globally unique old slugs become valid ones, distinct for every holder; those already valid are kept, and so are
      owners and names. */
  method RewriteSlugs(fold: string -> string, vaults: Vaults, order: seq<VaultId>, members: Members)
    returns (after: Vaults)
    requires GloballyUnique(vaults) && |vaults| < ROOM
    requires forall id :: id in vaults <==> id in order
    ensures AllMended(vaults, after) && DistinctPerHolder(after, members)
    ensures forall id :: id in after ==> ValidSlug(after[id].slug)
    ensures MendedNear(fold, vaults, order, |order|, after)
  {
    var bases := Bases(vaults, order);
    after := vaults;
    for i := 0 to |order|
      invariant AllMended(vaults, after) && |after| == |vaults| && DistinctPerHolder(after, members)
      invariant ValidSoFar(order, i, after) && MendedNear(fold, vaults, order, i, after)
    {
      ghost var was := after;
      if !ValidSlug(vaults[order[i]].slug) {
        after := Mend(fold, vaults, after, members, order[i], bases[i]);
        BaseIsNear(fold, vaults, order, i, bases[i], after[order[i]].slug);
      }
      OneMoreMended(fold, vaults, order, i, was, after);
    }
    AllValid(vaults, order, after);
  }

  lemma AllValid(vaults: Vaults, order: seq<VaultId>, after: Vaults)
    requires ValidSoFar(order, |order|, after) && after.Keys == vaults.Keys
    requires forall id :: id in vaults <==> id in order
    ensures forall id :: id in after ==> ValidSlug(after[id].slug)
  {
  }

  method Mend(fold: string -> string, vaults: Vaults, now: Vaults, members: Members, id: VaultId, base: string)
    returns (after: Vaults)
    requires AllMended(vaults, now) && DistinctPerHolder(now, members) && |now| < ROOM
    requires id in vaults && !ValidSlug(vaults[id].slug)
    ensures AllMended(vaults, after) && DistinctPerHolder(after, members) && |after| == |now|
    ensures id in after && ValidSlug(after[id].slug) && IsTried(StemOf(fold, base), after[id].slug)
    ensures forall other :: other in now && other != id ==> other in after && after[other] == now[other]
  {
    after := Reslug(fold, now, members, id, base);
    assert after.Keys == now.Keys;
    assert |after| == |after.Keys| == |now.Keys| == |now|;
  }
}
