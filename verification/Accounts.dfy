/** Accounts, vaults and memberships: every method of the store is one transaction (mindin/auth/hosted_store.py:272-302,
    304-344, 388-589, 710-765, mindin/auth/hosted_vaults.py:165-218, 326-367, mindin/auth/hosted_keys.py:279-316). */
module Accounts {
  import opened Texts
  import opened Slugs

  type Secret = string

  datatype Status = Invited | Active | Suspended
  datatype Account = Account(email: string, status: Status, signedIn: bool)
  datatype Vault = Vault(owner: AccountId, name: string, slug: string, shared: bool)

  /** A vault as a caller read it, perhaps some transactions ago. */
  datatype Seen = Seen(id: VaultId, vault: Vault)

  datatype ApiKey = ApiKey(account: AccountId, vault: VaultId, scopes: seq<string>, purpose: string, revoked: bool)
  datatype Token = Token(refresh: bool, grant: string, client: string, account: AccountId, vault: VaultId,
                         scopes: seq<string>, resource: Resource, expires: real, revoked: bool)
  datatype Device = Device(account: Option<AccountId>, vault: Option<VaultId>)

  /** The resource of a token: another server's, or this one's with or without a vault in its address. */
  datatype Resource = Foreign | Here(slug: Option<string>)

  /** Keys, tokens and devices by their secrets: the store keeps digests, which do not collide. */
  datatype Db = Db(accounts: map<AccountId, Account>, vaults: map<VaultId, Vault>, members: set<(VaultId, AccountId)>,
                   invitations: set<(VaultId, string)>, keys: map<Secret, ApiKey>, tokens: map<Secret, Token>,
                   devices: map<Secret, Device>)

  datatype Error = BadEmail | Known | BadName | BadSlug | SlugTaken | MemberHasSlug | NoVault | NotShared
                 | AlreadyIn | AlreadyInvited | OwnerStays | NotAMember | NotReached | StillShared | Integrity

  datatype Outcome = Done(db: Db) | Failed(error: Error)

  // ---- who reaches what, three times ----

  /** `reaches`, on a vault as it was read. */
  predicate Reaches(db: Db, seen: Seen, account: AccountId) {
    seen.vault.owner == account || (seen.vault.shared && (seen.id, account) in db.members)
  }

  /** `reached`: the vaults of several accounts, by one query. */
  function Reached(db: Db, accounts: set<AccountId>): set<VaultId> {
    set id | id in db.vaults
             && (db.vaults[id].owner in accounts
                 || (db.vaults[id].shared && exists m :: m in db.members && m.0 == id && m.1 in accounts))
  }

  /** `reachable_vaults`: one's own, and those one is a member of without owning them. */
  function ReachableVaults(db: Db, account: AccountId): set<VaultId> {
    (set id | id in db.vaults && db.vaults[id].owner == account)
    + set id | id in db.vaults && (id, account) in db.members && db.vaults[id].owner != account
  }

  /** `holders`: the owner and the members of a vault. */
  function Holders(db: Db, id: VaultId): set<AccountId> {
    (if id in db.vaults then {db.vaults[id].owner} else {}) + set m | m in db.members && m.0 == id :: m.1
  }

  predicate Reach(db: Db, id: VaultId, account: AccountId) {
    id in db.vaults && (db.vaults[id].owner == account || (id, account) in db.members)
  }

  // ---- the invariant ----

  ghost predicate DistinctSlugs(db: Db) {
    forall v, w, a | Reach(db, v, a) && Reach(db, w, a) && v != w :: db.vaults[v].slug != db.vaults[w].slug
  }

  predicate VaultsOwned(db: Db) {
    "" !in db.vaults && forall id :: id in db.vaults ==> db.vaults[id].owner in db.accounts && ValidSlug(db.vaults[id].slug)
  }

  predicate MembersOfShared(db: Db) {
    forall m :: m in db.members ==>
      m.0 in db.vaults && db.vaults[m.0].shared && db.vaults[m.0].owner != m.1 && m.1 in db.accounts
  }

  predicate InvitedToShared(db: Db) {
    forall i :: i in db.invitations ==> i.0 in db.vaults && db.vaults[i.0].shared
  }

  predicate SecretsNameVaults(db: Db) {
    && (forall k :: k in db.keys ==> db.keys[k].vault in db.vaults && db.keys[k].account in db.accounts)
    && (forall t :: t in db.tokens ==> db.tokens[t].vault in db.vaults && db.tokens[t].account in db.accounts)
    && (forall d :: d in db.devices && db.devices[d].vault.Some? ==> db.devices[d].vault.value in db.vaults)
  }

  ghost predicate Good(db: Db) {
    DistinctSlugs(db) && VaultsOwned(db) && MembersOfShared(db) && InvitedToShared(db) && SecretsNameVaults(db)
  }

  /** The three queries give one answer, and so do the holders of a vault. */
  lemma ReachAgrees(db: Db, id: VaultId, account: AccountId)
    requires Good(db) && id in db.vaults
    ensures Reaches(db, Seen(id, db.vaults[id]), account) <==> Reach(db, id, account)
    ensures id in Reached(db, {account}) <==> Reach(db, id, account)
    ensures id in ReachableVaults(db, account) <==> Reach(db, id, account)
    ensures account in Holders(db, id) <==> Reach(db, id, account)
  {
    if (id, account) in db.members {
      assert (id, account).0 == id;
    }
  }

  // ---- slugs of a set of accounts ----

  function SlugsReached(db: Db, accounts: set<AccountId>, other: VaultId): set<string> {
    set id | id in Reached(db, accounts) && id != other :: db.vaults[id].slug
  }

  predicate Clash(db: Db, accounts: set<AccountId>, slug: string, other: VaultId) {
    exists id :: id in Reached(db, accounts) && id != other && db.vaults[id].slug == slug
  }

  /** The unique index on an account and a slug. */
  predicate OwnSlugTaken(db: Db, owner: AccountId, slug: string, other: VaultId) {
    exists id :: id in db.vaults && id != other && db.vaults[id].owner == owner && db.vaults[id].slug == slug
  }

  // ---- the methods ----

  function Insert(db: Db, id: VaultId, vault: Vault): Outcome {
    if vault.owner !in db.accounts || id in db.vaults || OwnSlugTaken(db, vault.owner, vault.slug, id)
    then Failed(Integrity)
    else Done(db.(vaults := db.vaults[id := vault]))
  }

  /** A new account and its first vault, at the slug that `free_slug` chose. */
  function AddAccount(db: Db, id: AccountId, account: Account, vaultId: VaultId, slug: string): Outcome {
    if '@' !in account.email then Failed(BadEmail)
    else if exists a :: a in db.accounts && db.accounts[a].email == account.email then Failed(Known)
    else if id in db.accounts then Failed(Integrity)
    else Insert(db.(accounts := db.accounts[id := account]), vaultId, Vault(id, "Personal", slug, false))
  }

  function SetStatus(db: Db, id: AccountId, status: Status): Outcome {
    if id !in db.accounts then Failed(Known)
    else Done(db.(accounts := db.accounts[id := db.accounts[id].(status := status)]))
  }

  /** `chosen` is the slug of `free_slug` when the caller asks for none. */
  function CreateVault(db: Db, account: AccountId, id: VaultId, name: string, slug: Option<string>, chosen: string,
                       shared: bool): Outcome {
    if name == "" then Failed(BadName)
    else if slug.Some? && !ValidSlug(slug.value) then Failed(BadSlug)
    else
      var address := if slug.Some? then slug.value else chosen;
      if Clash(db, {account}, address, "") then Failed(SlugTaken)
      else Insert(db, id, Vault(account, name, address, shared))
  }

  function RenameVault(db: Db, id: VaultId, name: Option<string>, slug: Option<string>): Outcome {
    if id !in db.vaults then Failed(NoVault)
    else
      var vault := db.vaults[id];
      var cleaned := if name.Some? then name.value else vault.name;
      var address := if slug.Some? then slug.value else vault.slug;
      if cleaned == "" then Failed(BadName)
      else if !ValidSlug(address) then Failed(BadSlug)
      else if address != vault.slug && Clash(db, {vault.owner}, address, id) then Failed(SlugTaken)
      else if address != vault.slug && Clash(db, Holders(db, id), address, id) then Failed(MemberHasSlug)
      else if OwnSlugTaken(db, vault.owner, address, id) then Failed(Integrity)
      else Done(db.(vaults := db.vaults[id := vault.(name := cleaned, slug := address)]))
  }

  function InviteMember(db: Db, seen: Seen, email: string): Outcome {
    if !seen.vault.shared then Failed(NotShared)
    else if '@' !in email || |email| > 254 then Failed(BadEmail)
    else if exists a :: a in db.accounts && db.accounts[a].email == email && Reaches(db, seen, a) then Failed(AlreadyIn)
    else if (seen.id, email) in db.invitations then Failed(AlreadyInvited)
    else if seen.id !in db.vaults then Failed(Integrity)
    else Done(db.(invitations := db.invitations + {(seen.id, email)}))
  }

  function Withdraw(db: Db, seen: Seen, email: string): Outcome {
    Done(db.(invitations := db.invitations - {(seen.id, email)}))
  }

  /** The vaults that the addresses are invited to and the account does not own. */
  function InvitedTo(db: Db, account: AccountId, emails: set<string>): set<VaultId> {
    set i | i in db.invitations && i.1 in emails && i.0 in db.vaults && db.vaults[i.0].owner != account :: i.0
  }

  /** One invitation accepted, or left waiting when the account reaches another vault with that slug. */
  function Accept(db: Db, account: AccountId, emails: set<string>, id: VaultId): Db {
    if id !in db.vaults || Clash(db, {account}, db.vaults[id].slug, id) then db
    else db.(members := db.members + {(id, account)},
             invitations := set i | i in db.invitations && !(i.0 == id && i.1 in emails))
  }

  function AcceptAll(db: Db, account: AccountId, emails: set<string>, order: seq<VaultId>): Db {
    if order == [] then db
    else Accept(AcceptAll(db, account, emails, order[..|order| - 1]), account, emails, order[|order| - 1])
  }

  function AcceptInvitations(db: Db, account: AccountId, emails: set<string>, order: seq<VaultId>): Outcome {
    if account !in db.accounts then Failed(Integrity) else Done(AcceptAll(db, account, emails, order))
  }

  predicate Bound(account: AccountId, vault: VaultId, a: AccountId, v: VaultId) {
    a == account && v == vault
  }

  /** The secrets of an account for a vault, revoked. */
  function KeysRevoked(keys: map<Secret, ApiKey>, vault: VaultId, account: AccountId): map<Secret, ApiKey> {
    map k | k in keys :: if Bound(account, vault, keys[k].account, keys[k].vault) then keys[k].(revoked := true) else keys[k]
  }

  function TokensRevoked(tokens: map<Secret, Token>, vault: VaultId, account: AccountId): map<Secret, Token> {
    map t | t in tokens :: if Bound(account, vault, tokens[t].account, tokens[t].vault) then tokens[t].(revoked := true) else tokens[t]
  }

  function RemoveMember(db: Db, seen: Seen, account: AccountId): Outcome {
    if account == seen.vault.owner then Failed(OwnerStays)
    else Done(db.(members := db.members - {(seen.id, account)},
                  keys := KeysRevoked(db.keys, seen.id, account),
                  tokens := TokensRevoked(db.tokens, seen.id, account),
                  devices := map d | d in db.devices && db.devices[d] != Device(Some(account), Some(seen.id)) :: db.devices[d]))
  }

  function HandOver(db: Db, seen: Seen, account: AccountId): Outcome {
    if account == seen.vault.owner || !Reaches(db, seen, account) then Failed(NotAMember)
    else if Clash(db, {account}, seen.vault.slug, seen.id) then Failed(SlugTaken)
    else if seen.id !in db.vaults || seen.vault.owner !in db.accounts
            || OwnSlugTaken(db, account, db.vaults[seen.id].slug, seen.id) then Failed(Integrity)
    else Done(db.(members := db.members - {(seen.id, account)} + {(seen.id, seen.vault.owner)},
                  vaults := db.vaults[seen.id := db.vaults[seen.id].(owner := account)]))
  }

  function CreateKey(db: Db, secret: Secret, key: ApiKey): Outcome {
    if key.vault !in db.vaults || !Reaches(db, Seen(key.vault, db.vaults[key.vault]), key.account) then Failed(NotReached)
    else if secret in db.keys || key.account !in db.accounts then Failed(Integrity)
    else Done(db.(keys := db.keys[secret := key.(revoked := false)]))
  }

  function RevokeKey(db: Db, secret: Secret): Outcome {
    if secret !in db.keys then Done(db) else Done(db.(keys := db.keys[secret := db.keys[secret].(revoked := true)]))
  }

  function SaveToken(db: Db, secret: Secret, token: Token): Outcome {
    if secret in db.tokens || token.account !in db.accounts || token.vault !in db.vaults then Failed(Integrity)
    else Done(db.(tokens := db.tokens[secret := token.(revoked := false)]))
  }

  /** `revoke_token` and `revoke_grant`: every token of some set. */
  function RevokeTokens(db: Db, revoked: set<Secret>): Outcome {
    Done(db.(tokens := map t | t in db.tokens :: if t in revoked then db.tokens[t].(revoked := true) else db.tokens[t]))
  }

  function PutDevice(db: Db, secret: Secret, device: Device): Outcome {
    if device.vault.Some? && device.vault.value !in db.vaults then Failed(Integrity)
    else Done(db.(devices := db.devices[secret := device]))
  }

  function DropDevice(db: Db, secret: Secret): Outcome {
    Done(db.(devices := db.devices - {secret}))
  }

  /** A vault with every row that names it. */
  function WithoutVault(db: Db, id: VaultId): Db {
    db.(vaults := db.vaults - {id},
        members := (set m | m in db.members && m.0 != id),
        invitations := (set i | i in db.invitations && i.0 != id),
        keys := map k | k in db.keys && db.keys[k].vault != id :: db.keys[k],
        tokens := map t | t in db.tokens && db.tokens[t].vault != id :: db.tokens[t],
        devices := map d | d in db.devices && db.devices[d].vault != Some(id) :: db.devices[d])
  }

  function WithoutVaults(db: Db, ids: seq<VaultId>): Db {
    if ids == [] then db else WithoutVault(WithoutVaults(db, ids[..|ids| - 1]), ids[|ids| - 1])
  }

  predicate SharedWithOthers(db: Db, id: VaultId) {
    id in db.vaults && db.vaults[id].shared && exists m :: m in db.members && m.0 == id && m.1 != db.vaults[id].owner
  }

  /** The rows of an account itself. */
  function WithoutAccount(db: Db, account: AccountId): Db {
    db.(accounts := db.accounts - {account},
        members := (set m | m in db.members && m.1 != account),
        keys := map k | k in db.keys && db.keys[k].account != account :: db.keys[k],
        tokens := map t | t in db.tokens && db.tokens[t].account != account :: db.tokens[t],
        devices := map d | d in db.devices && db.devices[d].account != Some(account) :: db.devices[d])
  }

  function DeleteAccount(db: Db, account: AccountId, own: seq<VaultId>): Outcome {
    if exists id :: id in own && SharedWithOthers(db, id) then Failed(StillShared)
    else Done(WithoutAccount(WithoutVaults(db, own), account))
  }

  // ---- every method keeps the invariant ----

  lemma InsertKeeps(db: Db, id: VaultId, vault: Vault)
    requires Good(db) && Insert(db, id, vault).Done? && ValidSlug(vault.slug) && id != ""
    requires vault.slug !in SlugsReached(db, {vault.owner}, id)
    ensures Good(Insert(db, id, vault).db)
  {
    var after := Insert(db, id, vault).db;
    forall v, w, a | Reach(after, v, a) && Reach(after, w, a) && v != w ensures after.vaults[v].slug != after.vaults[w].slug {
      if v == id {
        SlugIsReached(db, w, a, id);
      } else if w == id {
        SlugIsReached(db, v, a, id);
      } else {
        assert Reach(db, v, a) && Reach(db, w, a);
      }
    }
  }

  lemma SlugIsReached(db: Db, id: VaultId, account: AccountId, other: VaultId)
    requires Good(db) && Reach(db, id, account) && id != other
    ensures db.vaults[id].slug in SlugsReached(db, {account}, other)
  {
    ReachAgrees(db, id, account);
  }

  lemma AddAccountKeeps(db: Db, id: AccountId, account: Account, vaultId: VaultId, slug: string)
    requires Good(db) && AddAccount(db, id, account, vaultId, slug).Done? && ValidSlug(slug) && vaultId != ""
    ensures Good(AddAccount(db, id, account, vaultId, slug).db)
  {
    var more := db.(accounts := db.accounts[id := account]);
    assert Good(more) by {
      forall v, w, a | Reach(more, v, a) && Reach(more, w, a) && v != w ensures more.vaults[v].slug != more.vaults[w].slug {
        assert Reach(db, v, a) && Reach(db, w, a);
      }
    }
    assert Reached(more, {id}) == {};
    InsertKeeps(more, vaultId, Vault(id, "Personal", slug, false));
  }

  lemma CreateVaultKeeps(db: Db, account: AccountId, id: VaultId, name: string, slug: Option<string>, chosen: string,
                         shared: bool)
    requires Good(db) && CreateVault(db, account, id, name, slug, chosen, shared).Done? && id != ""
    requires slug.None? ==> ValidSlug(chosen) && chosen !in SlugsReached(db, {account}, "")
    ensures Good(CreateVault(db, account, id, name, slug, chosen, shared).db)
  {
    var address := if slug.Some? then slug.value else chosen;
    InsertKeeps(db, id, Vault(account, name, address, shared));
  }

  lemma RenameKeeps(db: Db, id: VaultId, name: Option<string>, slug: Option<string>)
    requires Good(db) && RenameVault(db, id, name, slug).Done?
    ensures Good(RenameVault(db, id, name, slug).db)
  {
    var after := RenameVault(db, id, name, slug).db;
    var address := after.vaults[id].slug;
    forall v, w, a | Reach(after, v, a) && Reach(after, w, a) && v != w ensures after.vaults[v].slug != after.vaults[w].slug {
      assert Reach(db, v, a) && Reach(db, w, a);
      var other := if v == id then w else v;
      if (v == id || w == id) && address != db.vaults[id].slug {
        NoClashAmongHolders(db, id, address, other, a);
      }
    }
  }

  lemma NoClashAmongHolders(db: Db, id: VaultId, slug: string, other: VaultId, account: AccountId)
    requires Good(db) && Reach(db, id, account) && Reach(db, other, account) && other != id
    requires !Clash(db, Holders(db, id), slug, id)
    ensures db.vaults[other].slug != slug
  {
    ReachAgrees(db, id, account);
    assert other in Reached(db, Holders(db, id)) by {
      if db.vaults[other].owner != account {
        assert (other, account).0 == other && (other, account).1 in Holders(db, id);
      }
    }
  }

  lemma AcceptKeeps(db: Db, account: AccountId, emails: set<string>, id: VaultId)
    requires Good(db) && account in db.accounts
    requires id in db.vaults ==> db.vaults[id].shared && db.vaults[id].owner != account
    ensures Good(Accept(db, account, emails, id))
  {
    var after := Accept(db, account, emails, id);
    if after != db {
      forall v, w, a | Reach(after, v, a) && Reach(after, w, a) && v != w ensures after.vaults[v].slug != after.vaults[w].slug {
        if !(Reach(db, v, a) && Reach(db, w, a)) {
          var other := if v == id then w else v;
          ReachAgrees(db, other, a);
        }
      }
    }
  }

  lemma {:induction false} AcceptAllKeeps(db: Db, account: AccountId, emails: set<string>, order: seq<VaultId>)
    requires Good(db) && account in db.accounts
    requires forall i :: 0 <= i < |order| ==>
      order[i] in db.vaults && db.vaults[order[i]].shared && db.vaults[order[i]].owner != account
    ensures Good(AcceptAll(db, account, emails, order))
    ensures AcceptAll(db, account, emails, order).vaults == db.vaults
    ensures AcceptAll(db, account, emails, order).accounts == db.accounts
  {
    if order != [] {
      var n := |order| - 1;
      AcceptAllKeeps(db, account, emails, order[..n]);
      AcceptKeeps(AcceptAll(db, account, emails, order[..n]), account, emails, order[n]);
    }
  }

  lemma RemoveMemberKeeps(db: Db, seen: Seen, account: AccountId)
    requires Good(db) && RemoveMember(db, seen, account).Done?
    ensures Good(RemoveMember(db, seen, account).db)
  {
    var after := RemoveMember(db, seen, account).db;
    forall v, w, a | Reach(after, v, a) && Reach(after, w, a) && v != w ensures after.vaults[v].slug != after.vaults[w].slug {
      assert Reach(db, v, a) && Reach(db, w, a);
    }
  }

  /** The kind of a vault never changes, so a caller's view of it is right. */
  predicate Genuine(db: Db, seen: Seen) {
    seen.id in db.vaults ==> db.vaults[seen.id].shared == seen.vault.shared
  }

  predicate OwnerIsCurrent(db: Db, seen: Seen) {
    seen.id in db.vaults ==> db.vaults[seen.id].owner == seen.vault.owner
  }

  ghost predicate SameReach(a: Db, b: Db) {
    forall id, account :: Reach(a, id, account) <==> Reach(b, id, account)
  }

  /** Handing a vault over changes who owns it and nobody's reach, exactly when the owner was read correctly: the owner
      that a stale page does not know of is put out. */
  lemma HandOverKeepsReach(db: Db, seen: Seen, account: AccountId)
    requires Good(db) && Genuine(db, seen) && HandOver(db, seen, account).Done?
    ensures SameReach(db, HandOver(db, seen, account).db) <==> OwnerIsCurrent(db, seen)
    ensures HandOver(db, seen, account).db.vaults[seen.id].owner == account
  {
    var after := HandOver(db, seen, account).db;
    var owner := db.vaults[seen.id].owner;
    assert Reach(db, seen.id, account) && Reach(after, seen.id, account) && Reach(db, seen.id, owner);
    if OwnerIsCurrent(db, seen) {
      forall id, a ensures Reach(db, id, a) <==> Reach(after, id, a) {
      }
    } else {
      assert (seen.id, owner) !in db.members && account != owner;
      assert !Reach(after, seen.id, owner);
    }
  }

  /** The owner that was read reaches another vault with this vault's slug. */
  predicate OldOwnerClashes(db: Db, seen: Seen) {
    seen.id in db.vaults && Clash(db, {seen.vault.owner}, db.vaults[seen.id].slug, seen.id)
  }

  lemma CurrentOwnerDoesNotClash(db: Db, seen: Seen)
    requires Good(db) && seen.id in db.vaults && OwnerIsCurrent(db, seen)
    ensures !OldOwnerClashes(db, seen)
  {
    forall id | id in Reached(db, {seen.vault.owner}) && id != seen.id
      ensures db.vaults[id].slug != db.vaults[seen.id].slug
    {
      ReachAgrees(db, id, seen.vault.owner);
      assert Reach(db, seen.id, seen.vault.owner);
    }
  }

  lemma HandOverDistinct(db: Db, seen: Seen, account: AccountId)
    requires Good(db) && Genuine(db, seen) && HandOver(db, seen, account).Done? && !OldOwnerClashes(db, seen)
    ensures DistinctSlugs(HandOver(db, seen, account).db)
  {
    var after := HandOver(db, seen, account).db;
    forall v, w, a | Reach(after, v, a) && Reach(after, w, a) && v != w ensures after.vaults[v].slug != after.vaults[w].slug {
      if !(Reach(db, v, a) && Reach(db, w, a)) {
        var other := if v == seen.id then w else v;
        assert a == seen.vault.owner && Reach(db, other, a);
        ReachAgrees(db, other, a);
      }
    }
  }

  lemma HandOverClashes(db: Db, seen: Seen, account: AccountId)
    requires Good(db) && Genuine(db, seen) && HandOver(db, seen, account).Done? && OldOwnerClashes(db, seen)
    ensures !DistinctSlugs(HandOver(db, seen, account).db)
  {
    var after, owner := HandOver(db, seen, account).db, seen.vault.owner;
    var id :| id in Reached(db, {owner}) && id != seen.id && db.vaults[id].slug == db.vaults[seen.id].slug;
    ReachAgrees(db, id, owner);
    assert Reach(after, id, owner) && Reach(after, seen.id, owner);
  }

  /** Handing over a vault that was read before an earlier hand-over keeps the invariant if and only if the owner that
      was read reaches no other vault with its slug; with the current owner that is always so. */
  lemma HandOverKeepsExactly(db: Db, seen: Seen, account: AccountId)
    requires Good(db) && Genuine(db, seen) && HandOver(db, seen, account).Done?
    ensures Good(HandOver(db, seen, account).db) <==> !OldOwnerClashes(db, seen)
    ensures OwnerIsCurrent(db, seen) ==> !OldOwnerClashes(db, seen)
  {
    if OldOwnerClashes(db, seen) {
      HandOverClashes(db, seen, account);
    } else {
      HandOverDistinct(db, seen, account);
    }
    if OwnerIsCurrent(db, seen) {
      CurrentOwnerDoesNotClash(db, seen);
    }
  }

  lemma WithoutVaultKeeps(db: Db, id: VaultId)
    requires Good(db)
    ensures Good(WithoutVault(db, id))
  {
    var after := WithoutVault(db, id);
    forall v, w, a | Reach(after, v, a) && Reach(after, w, a) && v != w ensures after.vaults[v].slug != after.vaults[w].slug {
      assert Reach(db, v, a) && Reach(db, w, a);
    }
  }

  lemma {:induction false} WithoutVaultsKeeps(db: Db, ids: seq<VaultId>)
    requires Good(db)
    ensures Good(WithoutVaults(db, ids))
    ensures WithoutVaults(db, ids).vaults == map id | id in db.vaults && id !in ids :: db.vaults[id]
    ensures WithoutVaults(db, ids).accounts == db.accounts
  {
    if ids != [] {
      var n := |ids| - 1;
      WithoutVaultsKeeps(db, ids[..n]);
      WithoutVaultKeeps(WithoutVaults(db, ids[..n]), ids[n]);
      assert ids == ids[..n] + [ids[n]];
    }
  }

  lemma WithoutAccountKeeps(db: Db, account: AccountId)
    requires Good(db) && forall id :: id in db.vaults ==> db.vaults[id].owner != account
    ensures Good(WithoutAccount(db, account))
  {
    var after := WithoutAccount(db, account);
    forall v, w, a | Reach(after, v, a) && Reach(after, w, a) && v != w ensures after.vaults[v].slug != after.vaults[w].slug {
      assert Reach(db, v, a) && Reach(db, w, a);
    }
  }

  // ---- whole runs ----

  datatype Event =
    | Joined(id: AccountId, person: Account, vaultId: VaultId, slug: string)
    | StatusSet(id: AccountId, status: Status)
    | Created(account: AccountId, vaultId: VaultId, name: string, asked: Option<string>, slug: string, shared: bool)
    | Renamed(vaultId: VaultId, newName: Option<string>, asked: Option<string>)
    | MemberInvited(seen: Seen, email: string)
    | Withdrawn(seen: Seen, email: string)
    | Accepted(account: AccountId, emails: set<string>, order: seq<VaultId>)
    | MemberRemoved(seen: Seen, member: AccountId)
    | HandedOver(seen: Seen, member: AccountId)
    | KeyMade(secret: Secret, key: ApiKey)
    | KeyRevoked(secret: Secret)
    | TokenSaved(secret: Secret, token: Token)
    | TokensDropped(secrets: set<Secret>)
    | DevicePut(secret: Secret, device: Device)
    | DeviceDropped(secret: Secret)
    | VaultDeleted(vaultId: VaultId)
    | AccountDeleted(id: AccountId, own: seq<VaultId>)

  function Call(db: Db, e: Event): Outcome {
    match e
    case Joined(id, account, vaultId, slug) => AddAccount(db, id, account, vaultId, slug)
    case StatusSet(id, status) => SetStatus(db, id, status)
    case Created(account, vaultId, name, asked, slug, shared) =>
      CreateVault(db, account, vaultId, name, asked, slug, shared)
    case Renamed(vaultId, newName, asked) => RenameVault(db, vaultId, newName, asked)
    case MemberInvited(seen, email) => InviteMember(db, seen, email)
    case Withdrawn(seen, email) => Withdraw(db, seen, email)
    case Accepted(account, emails, order) => AcceptInvitations(db, account, emails, order)
    case MemberRemoved(seen, member) => RemoveMember(db, seen, member)
    case HandedOver(seen, member) => HandOver(db, seen, member)
    case KeyMade(secret, key) => CreateKey(db, secret, key)
    case KeyRevoked(secret) => RevokeKey(db, secret)
    case TokenSaved(secret, token) => SaveToken(db, secret, token)
    case TokensDropped(secrets) => RevokeTokens(db, secrets)
    case DevicePut(secret, device) => PutDevice(db, secret, device)
    case DeviceDropped(secret) => DropDevice(db, secret)
    case VaultDeleted(vaultId) => Done(WithoutVault(db, vaultId))
    case AccountDeleted(id, own) => DeleteAccount(db, id, own)
  }

  /** What the code around a call guarantees: slugs come from `free_slug`, ids are not empty, the invited vaults are
      those of the query. A hand-over may have read its vault long ago, as long as the owner it read reaches no other
      vault with that slug. */
  ghost predicate Called(db: Db, e: Event) {
    match e
    case Joined(id, _, vaultId, slug) => vaultId != "" && ValidSlug(slug) && slug !in SlugsReached(db, {id}, "")
    case Created(account, vaultId, _, asked, slug, _) =>
      vaultId != "" && (asked.None? ==> ValidSlug(slug) && slug !in SlugsReached(db, {account}, ""))
    case MemberInvited(seen, _) => Genuine(db, seen)
    case Accepted(account, emails, order) => forall id :: id in order <==> id in InvitedTo(db, account, emails)
    case HandedOver(seen, _) => Genuine(db, seen) && !OldOwnerClashes(db, seen)
    case AccountDeleted(id, own) => forall v :: v in own <==> v in db.vaults && db.vaults[v].owner == id
    case _ => true
  }

  /** A call that fails rolls back. */
  function Next(db: Db, e: Event): Db {
    if Call(db, e).Done? then Call(db, e).db else db
  }

  datatype Trace = First(db: Db) | More(before: Trace, event: Event, db: Db)

  ghost predicate Run(t: Trace) {
    match t
    case First(db) => Good(db)
    case More(before, e, db) => Run(before) && Called(before.db, e) && db == Next(before.db, e)
  }

  lemma SameVaultsSameSlugs(db: Db, after: Db)
    requires DistinctSlugs(db) && after.vaults == db.vaults && after.members == db.members
    ensures DistinctSlugs(after)
  {
    forall v, w, a | Reach(after, v, a) && Reach(after, w, a) && v != w ensures after.vaults[v].slug != after.vaults[w].slug {
      assert Reach(db, v, a) && Reach(db, w, a);
    }
  }

  lemma RowsKeep(db: Db, e: Event)
    requires Good(db) && Call(db, e).Done?
    requires e.StatusSet? || e.MemberInvited? || e.Withdrawn? || e.DevicePut? || e.DeviceDropped?
    requires e.MemberInvited? ==> Genuine(db, e.seen)
    ensures Good(Call(db, e).db)
  {
    SameVaultsSameSlugs(db, Call(db, e).db);
  }

  lemma KeysKeep(db: Db, e: Event)
    requires Good(db) && Call(db, e).Done? && (e.KeyMade? || e.KeyRevoked?)
    ensures Good(Call(db, e).db)
  {
    SameVaultsSameSlugs(db, Call(db, e).db);
  }

  lemma TokensKeep(db: Db, e: Event)
    requires Good(db) && Call(db, e).Done? && (e.TokenSaved? || e.TokensDropped?)
    ensures Good(Call(db, e).db)
  {
    SameVaultsSameSlugs(db, Call(db, e).db);
  }

  lemma StepKeeps(db: Db, e: Event)
    requires Good(db) && Called(db, e)
    ensures Good(Next(db, e))
  {
    if Call(db, e).Done? {
      match e
      case Joined(id, account, vaultId, slug) => AddAccountKeeps(db, id, account, vaultId, slug);
      case Created(account, vaultId, name, asked, slug, shared) =>
        CreateVaultKeeps(db, account, vaultId, name, asked, slug, shared);
      case Renamed(vaultId, newName, asked) => RenameKeeps(db, vaultId, newName, asked);
      case Accepted(account, emails, order) =>
        forall i | 0 <= i < |order|
          ensures order[i] in db.vaults && db.vaults[order[i]].shared && db.vaults[order[i]].owner != account
        {
          assert order[i] in InvitedTo(db, account, emails);
        }
        AcceptAllKeeps(db, account, emails, order);
      case MemberRemoved(seen, member) => RemoveMemberKeeps(db, seen, member);
      case HandedOver(seen, member) => HandOverKeepsExactly(db, seen, member);
      case VaultDeleted(vaultId) => WithoutVaultKeeps(db, vaultId);
      case AccountDeleted(id, own) =>
        WithoutVaultsKeeps(db, own);
        WithoutAccountKeeps(WithoutVaults(db, own), id);
      case KeyMade(_, _) => KeysKeep(db, e);
      case KeyRevoked(_) => KeysKeep(db, e);
      case TokenSaved(_, _) => TokensKeep(db, e);
      case TokensDropped(_) => TokensKeep(db, e);
      case _ => RowsKeep(db, e);
    }
  }

  /** In every reachable state no account reaches two vaults with one slug, only shared vaults have members, no owner is
      a member row, and no key, token, device, member or invitation names a vault that is gone. */
  lemma {:induction false} AlwaysGood(t: Trace)
    requires Run(t)
    ensures Good(t.db)
  {
    if t.More? {
      AlwaysGood(t.before);
      StepKeeps(t.before.db, t.event);
    }
  }

  // ---- what each call does, in terms of who reaches what ----

  /** The account reaches another vault with that slug. */
  ghost predicate ReachesSlug(db: Db, account: AccountId, slug: string, other: VaultId) {
    exists id :: id != other && Reach(db, id, account) && db.vaults[id].slug == slug
  }

  /** When a call succeeds. */
  ghost predicate Succeeds(db: Db, e: Event) {
    match e
    case Joined(id, person, vaultId, _) =>
      && '@' in person.email && id !in db.accounts && vaultId !in db.vaults
      && forall a :: a in db.accounts ==> db.accounts[a].email != person.email
    case StatusSet(id, _) => id in db.accounts
    case Created(account, vaultId, name, asked, slug, _) =>
      && name != "" && (asked.Some? ==> ValidSlug(asked.value)) && account in db.accounts && vaultId !in db.vaults
      && !ReachesSlug(db, account, if asked.Some? then asked.value else slug, "")
    case Renamed(vaultId, newName, asked) =>
      && vaultId in db.vaults && newName != Some("") && (asked.Some? ==> ValidSlug(asked.value))
      && (newName.None? ==> db.vaults[vaultId].name != "")
      && forall a :: Reach(db, vaultId, a) && asked.Some? ==> !ReachesSlug(db, a, asked.value, vaultId)
    case MemberInvited(seen, email) =>
      && seen.vault.shared && seen.id in db.vaults && '@' in email && |email| <= 254
      && (seen.id, email) !in db.invitations
      && forall a :: a in db.accounts && db.accounts[a].email == email ==>
           a != seen.vault.owner && (seen.id, a) !in db.members
    case Accepted(account, _, _) => account in db.accounts
    case MemberRemoved(seen, member) => member != seen.vault.owner
    case HandedOver(seen, member) =>
      && member != seen.vault.owner && seen.vault.owner in db.accounts && seen.id in db.vaults
      && (seen.id, member) in db.members
      && !ReachesSlug(db, member, seen.vault.slug, seen.id)
      && !OwnSlugTaken(db, member, db.vaults[seen.id].slug, seen.id)
    case KeyMade(secret, key) => Reach(db, key.vault, key.account) && secret !in db.keys
    case TokenSaved(secret, token) => secret !in db.tokens && token.account in db.accounts && token.vault in db.vaults
    case DevicePut(_, device) => device.vault.Some? ==> device.vault.value in db.vaults
    case AccountDeleted(id, own) => forall v, a :: v in own && Reach(db, v, a) ==> a == id
    case _ => true
  }

  lemma ClashIsReach(db: Db, account: AccountId, slug: string, other: VaultId)
    requires Good(db)
    ensures Clash(db, {account}, slug, other) <==> ReachesSlug(db, account, slug, other)
  {
    forall id | id in db.vaults ensures id in Reached(db, {account}) <==> Reach(db, id, account) {
      ReachAgrees(db, id, account);
    }
  }

  lemma ClashOfHolders(db: Db, id: VaultId, slug: string)
    requires Good(db) && id in db.vaults
    ensures Clash(db, Holders(db, id), slug, id) <==> exists a :: Reach(db, id, a) && ReachesSlug(db, a, slug, id)
  {
    if Clash(db, Holders(db, id), slug, id) {
      var other :| other in Reached(db, Holders(db, id)) && other != id && db.vaults[other].slug == slug;
      var a :| a in Holders(db, id) && Reach(db, other, a);
      ReachAgrees(db, id, a);
      assert ReachesSlug(db, a, slug, id);
    }
    if a :| Reach(db, id, a) && ReachesSlug(db, a, slug, id) {
      var other :| other != id && Reach(db, other, a) && db.vaults[other].slug == slug;
      if !Clash(db, Holders(db, id), slug, id) {
        NoClashAmongHolders(db, id, slug, other, a);
      }
    }
  }

  lemma RenamesExactly(db: Db, e: Event)
    requires Good(db) && e.Renamed?
    ensures Call(db, e).Done? <==> Succeeds(db, e)
  {
    if e.vaultId in db.vaults {
      var id, vault := e.vaultId, db.vaults[e.vaultId];
      var address := if e.asked.Some? then e.asked.value else vault.slug;
      ClashIsReach(db, vault.owner, address, id);
      ClashOfHolders(db, id, address);
      assert Reach(db, id, vault.owner);
      if OwnSlugTaken(db, vault.owner, address, id) {
        var other :| other in db.vaults && other != id && db.vaults[other].owner == vault.owner && db.vaults[other].slug == address;
        assert Reach(db, other, vault.owner);
      }
    }
  }

  lemma CreatesExactly(db: Db, e: Event)
    requires Good(db) && Called(db, e) && (e.Created? || e.Joined?)
    ensures Call(db, e).Done? <==> Succeeds(db, e)
  {
    if e.Created? {
      var address := if e.asked.Some? then e.asked.value else e.slug;
      ClashIsReach(db, e.account, address, "");
      if OwnSlugTaken(db, e.account, address, e.vaultId) {
        var id :| id in db.vaults && id != e.vaultId && db.vaults[id].owner == e.account && db.vaults[id].slug == address;
        assert Reach(db, id, e.account);
      }
    }
  }

  lemma DeletesExactly(db: Db, e: Event)
    requires Good(db) && Called(db, e) && e.AccountDeleted?
    ensures Call(db, e).Done? <==> Succeeds(db, e)
  {
    if id :| id in e.own && SharedWithOthers(db, id) {
      var m :| m in db.members && m.0 == id && m.1 != db.vaults[id].owner;
      assert Reach(db, id, m.1);
    }
    forall v, a | v in e.own && Reach(db, v, a) && a != e.id ensures SharedWithOthers(db, v) {
      assert (v, a).0 == v && (v, a).1 != db.vaults[v].owner;
    }
  }

  /** A call fails when, and only when, it would break a rule: said of who reaches what, and not of the queries. */
  lemma SucceedsExactly(db: Db, e: Event)
    requires Good(db) && Called(db, e)
    ensures Call(db, e).Done? <==> Succeeds(db, e)
  {
    if e.Joined? || e.Created? {
      CreatesExactly(db, e);
    } else if e.Renamed? {
      RenamesExactly(db, e);
    } else if e.HandedOver? {
      HandsOverExactly(db, e);
    } else if e.AccountDeleted? {
      DeletesExactly(db, e);
    } else if e.MemberInvited? || e.Accepted? || e.MemberRemoved? || e.Withdrawn? {
      MembersExactly(db, e);
    } else {
      RowsExactly(db, e);
    }
  }

  lemma HandsOverExactly(db: Db, e: Event)
    requires Good(db) && Called(db, e) && e.HandedOver?
    ensures Call(db, e).Done? <==> Succeeds(db, e)
  {
    ClashIsReach(db, e.member, e.seen.vault.slug, e.seen.id);
  }

  lemma MembersExactly(db: Db, e: Event)
    requires Good(db) && Called(db, e) && (e.MemberInvited? || e.Accepted? || e.MemberRemoved? || e.Withdrawn?)
    ensures Call(db, e).Done? <==> Succeeds(db, e)
  {
  }

  lemma RowsExactly(db: Db, e: Event)
    requires Good(db) && !e.Joined? && !e.Created? && !e.Renamed? && !e.HandedOver? && !e.AccountDeleted?
    requires !e.MemberInvited? && !e.Accepted? && !e.MemberRemoved? && !e.Withdrawn?
    ensures Call(db, e).Done? <==> Succeeds(db, e)
  {
  }

  /** Who reaches a vault after a call that succeeds. */
  ghost predicate ReachAfter(db: Db, e: Event, v: VaultId, a: AccountId) {
    match e
    case Joined(id, _, vaultId, _) => Reach(db, v, a) || (v == vaultId && a == id)
    case Created(account, vaultId, _, _, _, _) => Reach(db, v, a) || (v == vaultId && a == account)
    case Accepted(account, _, order) =>
      Reach(db, v, a)
      || (a == account && v in order && v in db.vaults && !ReachesSlug(Next(db, e), a, db.vaults[v].slug, v))
    case MemberRemoved(seen, member) =>
      Reach(db, v, a) && !(v == seen.id && a == member && a != db.vaults[v].owner)
    case HandedOver(seen, member) =>
      if v == seen.id then a == member || a == seen.vault.owner || (v, a) in db.members else Reach(db, v, a)
    case VaultDeleted(vaultId) => Reach(db, v, a) && v != vaultId
    case AccountDeleted(id, own) => Reach(db, v, a) && v !in own && a != id
    case _ => Reach(db, v, a)
  }

  lemma AcceptReaches(db: Db, account: AccountId, emails: set<string>, id: VaultId)
    requires Good(db)
    ensures forall v, a :: Reach(db, v, a) ==> Reach(Accept(db, account, emails, id), v, a)
    ensures forall v, a :: Reach(Accept(db, account, emails, id), v, a) ==> Reach(db, v, a) || (v == id && a == account)
    ensures id in db.vaults && !Reach(Accept(db, account, emails, id), id, account) ==>
              ReachesSlug(Accept(db, account, emails, id), account, db.vaults[id].slug, id)
  {
    if id in db.vaults {
      ClashIsReach(db, account, db.vaults[id].slug, id);
    }
  }

  /** Accepting a list of invitations takes no reach away, and adds only what is in the list; what it leaves out has the
      slug of a vault the account reaches. */
  lemma {:induction false} AcceptingReaches(db: Db, account: AccountId, emails: set<string>, order: seq<VaultId>)
    requires Good(db) && account in db.accounts
    requires forall i :: 0 <= i < |order| ==>
      order[i] in db.vaults && db.vaults[order[i]].shared && db.vaults[order[i]].owner != account
    ensures var after := AcceptAll(db, account, emails, order);
      && after.vaults == db.vaults && Good(after)
      && (forall v, a :: Reach(db, v, a) ==> Reach(after, v, a))
      && (forall v, a :: Reach(after, v, a) ==> Reach(db, v, a) || (v in order && a == account))
      && (forall v :: v in order && !Reach(after, v, account) ==> ReachesSlug(after, account, db.vaults[v].slug, v))
  {
    AcceptAllKeeps(db, account, emails, order);
    var after := AcceptAll(db, account, emails, order);
    if order != [] {
      var n := |order| - 1;
      var was, next := AcceptAll(db, account, emails, order[..n]), order[n];
      AcceptingReaches(db, account, emails, order[..n]);
      AcceptReaches(was, account, emails, next);
      assert order == order[..n] + [next];
      forall v | v in order && !Reach(after, v, account) ensures ReachesSlug(after, account, db.vaults[v].slug, v) {
        if v in order[..n] {
          assert ReachesSlug(was, account, db.vaults[v].slug, v);
        }
      }
    }
  }

  lemma InvitedAreShared(db: Db, account: AccountId, emails: set<string>, order: seq<VaultId>)
    requires Good(db) && forall id :: id in order <==> id in InvitedTo(db, account, emails)
    ensures forall i :: 0 <= i < |order| ==>
      order[i] in db.vaults && db.vaults[order[i]].shared && db.vaults[order[i]].owner != account
  {
    forall i | 0 <= i < |order|
      ensures order[i] in db.vaults && db.vaults[order[i]].shared && db.vaults[order[i]].owner != account
    {
      assert order[i] in InvitedTo(db, account, emails);
    }
  }

  lemma AcceptedMoves(db: Db, e: Event, v: VaultId, a: AccountId)
    requires Good(db) && Called(db, e) && Call(db, e).Done? && e.Accepted?
    ensures Reach(Next(db, e), v, a) <==> ReachAfter(db, e, v, a)
  {
    InvitedAreShared(db, e.account, e.emails, e.order);
    AcceptingReaches(db, e.account, e.emails, e.order);
    var after := Next(db, e);
    assert Reach(after, v, a) ==> !ReachesSlug(after, a, after.vaults[v].slug, v);
  }

  lemma AccountGoneMoves(db: Db, e: Event, v: VaultId, a: AccountId)
    requires Good(db) && Called(db, e) && Call(db, e).Done? && e.AccountDeleted?
    ensures Reach(Next(db, e), v, a) <==> ReachAfter(db, e, v, a)
  {
    WithoutVaultsKeeps(db, e.own);
    WithoutVaultsReach(db, e.own, v, a);
  }

  /** Who reaches what changes with a call exactly so. */
  lemma ReachMoves(db: Db, e: Event, v: VaultId, a: AccountId)
    requires Good(db) && Called(db, e) && Call(db, e).Done?
    ensures Reach(Next(db, e), v, a) <==> ReachAfter(db, e, v, a)
  {
    if e.Accepted? {
      AcceptedMoves(db, e, v, a);
    } else if e.AccountDeleted? {
      AccountGoneMoves(db, e, v, a);
    } else if e.HandedOver? || e.MemberRemoved? {
      MemberMoves(db, e, v, a);
    } else if e.Joined? || e.Created? || e.Renamed? || e.VaultDeleted? {
      VaultMoves(db, e, v, a);
    } else {
      RowsMoveNobody(db, e, v, a);
    }
  }

  lemma MemberMoves(db: Db, e: Event, v: VaultId, a: AccountId)
    requires Good(db) && Called(db, e) && Call(db, e).Done? && (e.HandedOver? || e.MemberRemoved?)
    ensures Reach(Next(db, e), v, a) <==> ReachAfter(db, e, v, a)
  {
  }

  /** A removal takes that member's reach of that vault, and nothing else. */
  lemma RemovalMovesOne(db: Db, seen: Seen, account: AccountId)
    requires Good(db) && RemoveMember(db, seen, account).Done?
    ensures forall v, a :: Reach(RemoveMember(db, seen, account).db, v, a) <==>
                           Reach(db, v, a) && !(v == seen.id && a == account && db.vaults[v].owner != a)
  {
    forall v, a {
      MemberMoves(db, MemberRemoved(seen, account), v, a);
    }
  }

  lemma VaultMoves(db: Db, e: Event, v: VaultId, a: AccountId)
    requires Good(db) && Called(db, e) && Call(db, e).Done?
    requires e.Joined? || e.Created? || e.Renamed? || e.VaultDeleted?
    ensures Reach(Next(db, e), v, a) <==> ReachAfter(db, e, v, a)
  {
  }

  lemma RowsMoveNobody(db: Db, e: Event, v: VaultId, a: AccountId)
    requires Call(db, e).Done? && !e.Joined? && !e.Created? && !e.Renamed? && !e.VaultDeleted?
    requires !e.Accepted? && !e.AccountDeleted? && !e.HandedOver? && !e.MemberRemoved?
    ensures Reach(Next(db, e), v, a) <==> ReachAfter(db, e, v, a)
  {
  }

  lemma {:induction false} WithoutVaultsReach(db: Db, ids: seq<VaultId>, v: VaultId, a: AccountId)
    ensures Reach(WithoutVaults(db, ids), v, a) <==> Reach(db, v, a) && v !in ids
  {
    if ids != [] {
      var n := |ids| - 1;
      WithoutVaultsReach(db, ids[..n], v, a);
      assert ids == ids[..n] + [ids[n]];
    }
  }

  // ---- authentication ----

  datatype Access = Full | ReadOnly | NoAccess

  const READ_SCOPE := "notes:read"

  function Narrowed(access: Access, scopes: seq<string>): seq<string> {
    match access
    case Full => scopes
    case ReadOnly => OnlyRead(scopes)
    case NoAccess => []
  }

  function OnlyRead(scopes: seq<string>): seq<string> {
    if scopes == [] then [] else (if scopes[0] == READ_SCOPE then [scopes[0]] else []) + OnlyRead(scopes[1..])
  }

  datatype Verdict =
    | Granted(account: AccountId, vault: VaultId, scopes: seq<string>)
    | WrongVault | InvalidToken | AccountSuspended | AccountRestricted

  /** `key_grant`: an unrevoked key whose account still reaches its vault. */
  function KeyGrant(db: Db, secret: Secret): Option<ApiKey> {
    if secret !in db.keys || db.keys[secret].revoked then None
    else
      var key := db.keys[secret];
      if key.account !in db.accounts || key.vault !in db.vaults then None
      else if !Reaches(db, Seen(key.vault, db.vaults[key.vault]), key.account) then None
      else Some(key)
  }

  function Judge(db: Db, access: AccountId -> Access, account: AccountId, vault: VaultId, scopes: seq<string>): Verdict
    requires account in db.accounts
  {
    if !db.accounts[account].status.Active? || !db.accounts[account].signedIn then AccountSuspended
    else if Narrowed(access(account), scopes) == [] then AccountRestricted
    else Granted(account, vault, Narrowed(access(account), scopes))
  }

  /** `authenticate`: a key first, then an access token; `slug` is the vault named in the address, if one is. */
  function Authenticate(db: Db, access: AccountId -> Access, secret: Secret, slug: Option<string>, now: real): Verdict {
    var grant := KeyGrant(db, secret);
    if grant.Some? then
      if grant.value.vault in db.vaults && slug.Some? && db.vaults[grant.value.vault].slug != slug.value then WrongVault
      else if grant.value.account !in db.accounts then InvalidToken
      else Judge(db, access, grant.value.account, grant.value.vault, grant.value.scopes)
    else if secret !in db.tokens || db.tokens[secret].refresh || db.tokens[secret].revoked
            || db.tokens[secret].expires <= now then InvalidToken
    else
      var token := db.tokens[secret];
      if token.resource.Foreign? || (token.resource.slug.Some? && slug.None?) then InvalidToken
      else if token.account !in db.accounts || token.vault !in db.vaults then InvalidToken
      else if !Reaches(db, Seen(token.vault, db.vaults[token.vault]), token.account) then InvalidToken
      else if slug.Some? && db.vaults[token.vault].slug != slug.value then InvalidToken
      else Judge(db, access, token.account, token.vault, token.scopes)
  }

  lemma {:induction false} OnlyReadIsWithin(scopes: seq<string>)
    ensures forall s :: s in OnlyRead(scopes) ==> s in scopes
  {
    if scopes != [] {
      OnlyReadIsWithin(scopes[1..]);
    }
  }

  /** A live key or access token, with what it was granted. */
  predicate Holds(db: Db, secret: Secret, account: AccountId, vault: VaultId, scopes: seq<string>, now: real) {
    || (secret in db.keys && !db.keys[secret].revoked
        && db.keys[secret].account == account && db.keys[secret].vault == vault && db.keys[secret].scopes == scopes)
    || (secret in db.tokens && !db.tokens[secret].revoked && !db.tokens[secret].refresh && now < db.tokens[secret].expires
        && db.tokens[secret].account == account && db.tokens[secret].vault == vault && db.tokens[secret].scopes == scopes)
  }

  /** The scopes left to an account: all that were granted, those for reading, or none. */
  predicate Left(access: Access, granted: seq<string>, scopes: seq<string>) {
    match access
    case Full => scopes == granted
    case ReadOnly => (forall s :: s in scopes ==> s == READ_SCOPE) && |scopes| == multiset(granted)[READ_SCOPE]
    case NoAccess => scopes == []
  }

  lemma FirstCounted(scopes: seq<string>)
    requires scopes != []
    ensures multiset(scopes)[READ_SCOPE] == multiset(scopes[1..])[READ_SCOPE] + if scopes[0] == READ_SCOPE then 1 else 0
  {
    assert scopes == [scopes[0]] + scopes[1..];
  }

  lemma {:induction false} OnlyReadIs(scopes: seq<string>)
    ensures forall s :: s in OnlyRead(scopes) ==> s == READ_SCOPE
    ensures |OnlyRead(scopes)| == multiset(scopes)[READ_SCOPE]
  {
    if scopes != [] {
      FirstCounted(scopes);
      OnlyReadIs(scopes[1..]);
    }
  }

  lemma NarrowedIsLeft(access: Access, granted: seq<string>)
    ensures Left(access, granted, Narrowed(access, granted))
  {
    OnlyReadIs(granted);
  }

  /** Whoever presents a live secret bound to an account and a vault may use it now. */
  ghost predicate Entitled(db: Db, access: AccountId -> Access, account: AccountId, vault: VaultId,
                           granted: seq<string>, slug: Option<string>) {
    && account in db.accounts && db.accounts[account].status.Active? && db.accounts[account].signedIn
    && Reach(db, vault, account)
    && (slug.Some? ==> db.vaults[vault].slug == slug.value)
    && match access(account)
       case Full => granted != []
       case ReadOnly => READ_SCOPE in granted
       case NoAccess => false
  }

  /** An address of this server that a token made for `resource` may be used at. */
  predicate ForHere(resource: Resource, slug: Option<string>) {
    resource.Here? && (resource.slug.Some? ==> slug.Some?)
  }

  /** What a live secret gives: the account and the vault it was bound to, with the scopes that are left. */
  predicate Gives(verdict: Verdict, access: AccountId -> Access, account: AccountId, vault: VaultId, granted: seq<string>) {
    && verdict.Granted? && verdict.account == account && verdict.vault == vault
    && Left(access(account), granted, verdict.scopes)
  }

  lemma JudgesRightly(db: Db, access: AccountId -> Access, account: AccountId, vault: VaultId, granted: seq<string>)
    requires account in db.accounts
    ensures var verdict := Judge(db, access, account, vault, granted);
      && (verdict.Granted? ==> Gives(verdict, access, account, vault, granted))
      && (verdict.Granted? <==> db.accounts[account].status.Active? && db.accounts[account].signedIn
                                && match access(account)
                                   case Full => granted != []
                                   case ReadOnly => READ_SCOPE in granted
                                   case NoAccess => false)
  {
    NarrowedIsLeft(access(account), granted);
    assert READ_SCOPE in granted <==> READ_SCOPE in multiset(granted);
  }

  /** A key opens its vault, with the scopes left to its account, exactly when it is live and its account is entitled to
      use it at this address. */
  lemma KeyOpensExactly(t: Trace, access: AccountId -> Access, secret: Secret, slug: Option<string>, now: real)
    requires Run(t) && secret in t.db.keys && secret !in t.db.tokens
    ensures var key, verdict := t.db.keys[secret], Authenticate(t.db, access, secret, slug, now);
      && (verdict.Granted? <==> !key.revoked && Entitled(t.db, access, key.account, key.vault, key.scopes, slug))
      && (verdict.Granted? ==> Gives(verdict, access, key.account, key.vault, key.scopes))
  {
    AlwaysGood(t);
    var key := t.db.keys[secret];
    ReachAgrees(t.db, key.vault, key.account);
    JudgesRightly(t.db, access, key.account, key.vault, key.scopes);
  }

  /** An access token opens its vault exactly when it is live, made for this address, and its account is entitled to use
      it there. */
  lemma TokenOpensExactly(t: Trace, access: AccountId -> Access, secret: Secret, slug: Option<string>, now: real)
    requires Run(t) && secret in t.db.tokens && secret !in t.db.keys
    ensures var token, verdict := t.db.tokens[secret], Authenticate(t.db, access, secret, slug, now);
      && (verdict.Granted? <==>
            && !token.revoked && !token.refresh && now < token.expires && ForHere(token.resource, slug)
            && Entitled(t.db, access, token.account, token.vault, token.scopes, slug))
      && (verdict.Granted? ==> Gives(verdict, access, token.account, token.vault, token.scopes))
  {
    AlwaysGood(t);
    var token := t.db.tokens[secret];
    ReachAgrees(t.db, token.vault, token.account);
    JudgesRightly(t.db, access, token.account, token.vault, token.scopes);
  }

  /** Any access granted names an active account that reaches the vault the secret was bound to, at that moment, with
      scopes among those it was granted, and no other vault than the one the address names. */
  lemma AccessIsSound(t: Trace, access: AccountId -> Access, secret: Secret, slug: Option<string>, now: real)
    requires Run(t)
    ensures var verdict := Authenticate(t.db, access, secret, slug, now);
      verdict.Granted? ==>
        && verdict.account in t.db.accounts && t.db.accounts[verdict.account].status.Active?
        && Reach(t.db, verdict.vault, verdict.account)
        && (slug.Some? ==> t.db.vaults[verdict.vault].slug == slug.value)
        && exists granted :: Holds(t.db, secret, verdict.account, verdict.vault, granted, now)
                             && verdict.scopes != [] && forall s :: s in verdict.scopes ==> s in granted
  {
    var db := t.db;
    AlwaysGood(t);
    var verdict := Authenticate(db, access, secret, slug, now);
    if verdict.Granted? {
      var granted := if KeyGrant(db, secret).Some? then db.keys[secret].scopes else db.tokens[secret].scopes;
      OnlyReadIsWithin(granted);
      ReachAgrees(db, verdict.vault, verdict.account);
      assert Holds(db, secret, verdict.account, verdict.vault, granted, now);
    }
  }

  // ---- removal is final ----

  /** A key or token that has been revoked, or whose row has gone. */
  predicate Dead(db: Db, secret: Secret) {
    && (secret in db.keys ==> db.keys[secret].revoked)
    && (secret in db.tokens ==> db.tokens[secret].revoked)
  }

  predicate IsBound(db: Db, secret: Secret, vault: VaultId, account: AccountId) {
    || (secret in db.keys && Bound(account, vault, db.keys[secret].account, db.keys[secret].vault))
    || (secret in db.tokens && Bound(account, vault, db.tokens[secret].account, db.tokens[secret].vault))
  }

  predicate Used(t: Trace, secret: Secret) {
    secret in t.db.keys || secret in t.db.tokens || (t.More? && Used(t.before, secret))
  }

  /** Secrets are random and keys carry a prefix: none is given out twice, and none is both a key and a token. */
  ghost predicate FreshSecrets(t: Trace) {
    && (forall s :: s in t.db.keys ==> s !in t.db.tokens)
    && (t.More? ==>
          FreshSecrets(t.before) && (t.event.KeyMade? || t.event.TokenSaved? ==> !Used(t.before, t.event.secret)))
  }

  /** Some removal of a member found this secret bound to that account and that vault. */
  ghost predicate CutOff(t: Trace, secret: Secret) {
    t.More? &&
    (CutOff(t.before, secret)
     || (t.event.MemberRemoved? && Call(t.before.db, t.event).Done?
         && IsBound(t.before.db, secret, t.event.seen.id, t.event.member)))
  }

  lemma {:induction false} CutOffWasUsed(t: Trace, secret: Secret)
    requires CutOff(t, secret)
    ensures Used(t, secret)
  {
    if CutOff(t.before, secret) {
      CutOffWasUsed(t.before, secret);
    }
  }

  lemma {:induction false} ShrinkingKeepsDead(db: Db, ids: seq<VaultId>, secret: Secret)
    requires Dead(db, secret)
    ensures Dead(WithoutVaults(db, ids), secret)
  {
    if ids != [] {
      ShrinkingKeepsDead(db, ids[..|ids| - 1], secret);
    }
  }

  lemma {:induction false} AcceptingKeepsSecrets(db: Db, account: AccountId, emails: set<string>, order: seq<VaultId>)
    ensures AcceptAll(db, account, emails, order).keys == db.keys
    ensures AcceptAll(db, account, emails, order).tokens == db.tokens
  {
    if order != [] {
      AcceptingKeepsSecrets(db, account, emails, order[..|order| - 1]);
    }
  }

  lemma RowsKeepDead(db: Db, e: Event, secret: Secret)
    requires Dead(db, secret) && !e.AccountDeleted? && !e.Accepted? && !e.KeyMade? && !e.TokenSaved?
    ensures Dead(Next(db, e), secret)
  {
  }

  lemma NewSecretsKeepDead(db: Db, e: Event, secret: Secret)
    requires Dead(db, secret) && (e.KeyMade? || e.TokenSaved?) && e.secret != secret
    ensures Dead(Next(db, e), secret)
  {
  }

  /** No call brings a dead secret back, unless it gives the same secret out again. */
  lemma DeadStaysDead(db: Db, e: Event, secret: Secret)
    requires Dead(db, secret) && ((e.KeyMade? || e.TokenSaved?) ==> e.secret != secret)
    ensures Dead(Next(db, e), secret)
  {
    if e.AccountDeleted? {
      ShrinkingKeepsDead(db, e.own, secret);
    } else if e.Accepted? {
      AcceptingKeepsSecrets(db, e.account, e.emails, e.order);
    } else if e.KeyMade? || e.TokenSaved? {
      NewSecretsKeepDead(db, e, secret);
    } else {
      RowsKeepDead(db, e, secret);
    }
  }

  lemma RemovalKills(db: Db, seen: Seen, member: AccountId, secret: Secret)
    requires RemoveMember(db, seen, member).Done? && IsBound(db, secret, seen.id, member)
    requires !(secret in db.keys && secret in db.tokens)
    ensures Dead(RemoveMember(db, seen, member).db, secret)
  {
  }

  lemma DeadIsRefused(db: Db, access: AccountId -> Access, secret: Secret, slug: Option<string>, now: real)
    requires Dead(db, secret)
    ensures !Authenticate(db, access, secret, slug, now).Granted?
  {
    assert KeyGrant(db, secret).None?;
  }

  lemma {:induction false} CutOffIsDead(t: Trace, secret: Secret)
    requires Run(t) && FreshSecrets(t) && CutOff(t, secret)
    ensures Dead(t.db, secret)
  {
    if CutOff(t.before, secret) {
      CutOffIsDead(t.before, secret);
      CutOffWasUsed(t.before, secret);
      DeadStaysDead(t.before.db, t.event, secret);
    } else {
      RemovalKills(t.before.db, t.event.seen, t.event.member, secret);
    }
  }

  /** Removal is final: a key or token of a member for a vault that exists when the member is removed never
      authenticates again, whatever happens afterwards, a new invitation included. */
  lemma RemovalIsFinal(t: Trace, secret: Secret, access: AccountId -> Access, slug: Option<string>, now: real)
    requires Run(t) && FreshSecrets(t) && CutOff(t, secret)
    ensures !Authenticate(t.db, access, secret, slug, now).Granted?
  {
    CutOffIsDead(t, secret);
    DeadIsRefused(t.db, access, secret, slug, now);
  }

  // ---- the store ----

  /** A transaction that was committed, or rolled back with its error. */
  predicate Settled(outcome: Outcome, before: Db, failure: Option<Error>, after: Db) {
    match outcome
    case Done(db) => failure == None && after == db
    case Failed(error) => failure == Some(error) && after == before
  }

  lemma {:induction false} SlugsAreFew(vaults: map<VaultId, Vault>, slugs: set<string>)
    requires forall slug :: slug in slugs ==> exists id :: id in vaults && vaults[id].slug == slug
    ensures |slugs| <= |vaults|
  {
    if slugs != {} {
      var slug :| slug in slugs;
      var id :| id in vaults && vaults[id].slug == slug;
      forall other | other in slugs - {slug} ensures exists j :: j in vaults - {id} && vaults[j].slug == other {
        var j :| j in vaults && vaults[j].slug == other;
        assert j in vaults - {id};
      }
      SlugsAreFew(vaults - {id}, slugs - {slug});
    }
  }

  // ---- removal is exact, and lasts ----

  /** Whether a call takes a live secret of that account for that vault away, itself named `secret`. */
  predicate Ends(e: Event, secret: Secret, account: AccountId, vault: VaultId) {
    match e
    case KeyRevoked(s) => s == secret
    case TokensDropped(secrets) => secret in secrets
    case MemberRemoved(seen, member) => seen.id == vault && member == account
    case VaultDeleted(v) => v == vault
    case AccountDeleted(id, own) => id == account || vault in own
    case _ => false
  }

  lemma {:induction false} WithoutVaultsSecrets(db: Db, ids: seq<VaultId>)
    ensures WithoutVaults(db, ids).keys == map k | k in db.keys && db.keys[k].vault !in ids :: db.keys[k]
    ensures WithoutVaults(db, ids).tokens == map t | t in db.tokens && db.tokens[t].vault !in ids :: db.tokens[t]
  {
    if ids != [] {
      var n := |ids| - 1;
      WithoutVaultsSecrets(db, ids[..n]);
      assert ids == ids[..n] + [ids[n]];
    }
  }

  lemma SecretsAfter(db: Db, e: Event)
    ensures e.AccountDeleted? ==>
              && WithoutVaults(db, e.own).keys == (map k | k in db.keys && db.keys[k].vault !in e.own :: db.keys[k])
              && WithoutVaults(db, e.own).tokens == (map t | t in db.tokens && db.tokens[t].vault !in e.own :: db.tokens[t])
    ensures e.Accepted? ==>
              && AcceptAll(db, e.account, e.emails, e.order).keys == db.keys
              && AcceptAll(db, e.account, e.emails, e.order).tokens == db.tokens
  {
    if e.AccountDeleted? {
      WithoutVaultsSecrets(db, e.own);
    } else if e.Accepted? {
      AcceptingKeepsSecrets(db, e.account, e.emails, e.order);
    }
  }

  /** A live key lives on as it is after every call but one that revokes it, removes its account from its vault, or
      deletes either. */
  lemma KeysEndExactly(db: Db, e: Event, secret: Secret)
    requires secret in db.keys && !db.keys[secret].revoked && Call(db, e).Done? && !e.TokensDropped?
    ensures var key, after := db.keys[secret], Next(db, e);
      if Ends(e, secret, key.account, key.vault) then secret in after.keys ==> after.keys[secret].revoked
      else secret in after.keys && after.keys[secret] == key
  {
    SecretsAfter(db, e);
  }

  lemma TokensEndExactly(db: Db, e: Event, secret: Secret)
    requires secret in db.tokens && !db.tokens[secret].revoked && Call(db, e).Done? && !e.KeyRevoked?
    ensures var token, after := db.tokens[secret], Next(db, e);
      if Ends(e, secret, token.account, token.vault) then secret in after.tokens ==> after.tokens[secret].revoked
      else secret in after.tokens && after.tokens[secret] == token
  {
    SecretsAfter(db, e);
  }

  /** What may let an account into a vault: accepting an invitation, a hand-over that takes it for the owner, a vault
      made for it. */
  predicate LetsBackIn(e: Event, vault: VaultId, account: AccountId) {
    match e
    case Accepted(a, _, order) => a == account && vault in order
    case HandedOver(seen, _) => seen.id == vault && seen.vault.owner == account
    case Created(a, v, _, _, _, _) => a == account && v == vault
    case Joined(a, _, v, _) => a == account && v == vault
    case _ => false
  }

  /** The account has been removed from the vault, which it did not own, and nothing has let it back in. */
  predicate PutOut(t: Trace, vault: VaultId, account: AccountId) {
    t.More? &&
    ((t.event.MemberRemoved? && t.event.seen.id == vault && t.event.member == account && Call(t.before.db, t.event).Done?
      && !(vault in t.db.vaults && t.db.vaults[vault].owner == account))
     || (PutOut(t.before, vault, account) && !LetsBackIn(t.event, vault, account)))
  }

  /** Nobody gets into a vault in any other way, and nobody accepts what he was not invited to. */
  lemma OnlyLetBackIn(db: Db, e: Event, vault: VaultId, account: AccountId)
    requires Good(db) && Called(db, e) && !Reach(db, vault, account) && Reach(Next(db, e), vault, account)
    ensures LetsBackIn(e, vault, account)
    ensures e.Accepted? ==> exists email :: email in e.emails && (vault, email) in db.invitations
  {
    ReachMoves(db, e, vault, account);
    if e.Accepted? {
      assert vault in InvitedTo(db, account, e.emails);
    }
  }

  lemma {:induction false} PutOutReachesNothing(t: Trace, vault: VaultId, account: AccountId)
    requires Run(t) && PutOut(t, vault, account)
    ensures !Reach(t.db, vault, account)
  {
    AlwaysGood(t.before);
    if PutOut(t.before, vault, account) && !LetsBackIn(t.event, vault, account) {
      PutOutReachesNothing(t.before, vault, account);
      if Reach(t.db, vault, account) {
        OnlyLetBackIn(t.before.db, t.event, vault, account);
      }
    } else {
      ReachMoves(t.before.db, t.event, vault, account);
    }
  }

  /** A removed member is out: until an invitation is accepted, or a hand-over takes the account for the owner, it does
      not reach the vault, no secret whatever opens the vault for it, and it can make no key for it. */
  lemma RemovedStaysOut(t: Trace, vault: VaultId, account: AccountId, access: AccountId -> Access, secret: Secret,
                        slug: Option<string>, now: real, key: ApiKey)
    requires Run(t) && PutOut(t, vault, account) && key.account == account && key.vault == vault
    ensures !Reach(t.db, vault, account)
    ensures var verdict := Authenticate(t.db, access, secret, slug, now);
      !(verdict.Granted? && verdict.account == account && verdict.vault == vault)
    ensures CreateKey(t.db, secret, key) == Failed(NotReached)
  {
    AlwaysGood(t);
    PutOutReachesNothing(t, vault, account);
    AccessIsSound(t, access, secret, slug, now);
  }

  // ---- the rows of accounts, secrets, vaults and invitations ----

  /** A new key or token is live, bound to the account and the vault it was made for, with its scopes. */
  lemma NewSecretsAreLive(db: Db, e: Event)
    requires Call(db, e).Done?
    ensures e.KeyMade? ==> e.secret in Next(db, e).keys && Next(db, e).keys[e.secret] == e.key.(revoked := false)
                           && Next(db, e).tokens == db.tokens
    ensures e.TokenSaved? ==> e.secret in Next(db, e).tokens
                              && Next(db, e).tokens[e.secret] == e.token.(revoked := false) && Next(db, e).keys == db.keys
  {
  }

  function AccountAfter(db: Db, e: Event, a: AccountId): Option<Account> {
    var row := if a in db.accounts then Some(db.accounts[a]) else None;
    match e
    case Joined(id, person, _, _) => if a == id then Some(person) else row
    case StatusSet(id, status) => if a == id && row.Some? then Some(row.value.(status := status)) else row
    case AccountDeleted(id, _) => if a == id then None else row
    case _ => row
  }

  /** Accounts come by joining and go by deletion, and only their status is ever set. */
  lemma AccountsMove(db: Db, e: Event, a: AccountId)
    requires Good(db) && Called(db, e) && Call(db, e).Done?
    ensures (if a in Next(db, e).accounts then Some(Next(db, e).accounts[a]) else None) == AccountAfter(db, e, a)
  {
    if e.Accepted? {
      InvitedAreShared(db, e.account, e.emails, e.order);
      AcceptAllKeeps(db, e.account, e.emails, e.order);
    } else if e.AccountDeleted? {
      WithoutVaultsKeeps(db, e.own);
    } else {
      RowsMoveAccounts(db, e, a);
    }
  }

  lemma RowsMoveAccounts(db: Db, e: Event, a: AccountId)
    requires Call(db, e).Done? && !e.Accepted? && !e.AccountDeleted?
    ensures (if a in Next(db, e).accounts then Some(Next(db, e).accounts[a]) else None) == AccountAfter(db, e, a)
  {
  }

  /** A device's row goes when it is dropped, when its account is removed from its vault, or with either. */
  predicate DropsDevice(e: Event, secret: Secret, device: Device) {
    match e
    case DeviceDropped(s) => s == secret
    case MemberRemoved(seen, member) => device.account == Some(member) && device.vault == Some(seen.id)
    case VaultDeleted(v) => device.vault == Some(v)
    case AccountDeleted(id, own) => device.account == Some(id) || (device.vault.Some? && device.vault.value in own)
    case _ => false
  }

  lemma {:induction false} WithoutVaultsDevices(db: Db, ids: seq<VaultId>)
    ensures WithoutVaults(db, ids).devices ==
            map d | d in db.devices && !(db.devices[d].vault.Some? && db.devices[d].vault.value in ids) :: db.devices[d]
  {
    if ids != [] {
      var n := |ids| - 1;
      WithoutVaultsDevices(db, ids[..n]);
      assert ids == ids[..n] + [ids[n]];
    }
  }

  lemma {:induction false} AcceptingKeepsDevices(db: Db, account: AccountId, emails: set<string>, order: seq<VaultId>)
    ensures AcceptAll(db, account, emails, order).devices == db.devices
  {
    if order != [] {
      AcceptingKeepsDevices(db, account, emails, order[..|order| - 1]);
    }
  }

  /** Device rows come with a put alone, and go exactly so. */
  lemma DevicesMove(db: Db, e: Event, d: Secret)
    requires Call(db, e).Done?
    ensures (if d in Next(db, e).devices then Some(Next(db, e).devices[d]) else None) ==
            if e.DevicePut? && e.secret == d then Some(e.device)
            else if d in db.devices && !DropsDevice(e, d, db.devices[d]) then Some(db.devices[d]) else None
  {
    if e.Accepted? {
      AcceptingKeepsDevices(db, e.account, e.emails, e.order);
    } else if e.AccountDeleted? {
      WithoutVaultsDevices(db, e.own);
    }
  }

  /** The row of a vault after a call that succeeds. */
  function RowAfter(db: Db, e: Event, v: VaultId): Option<Vault> {
    var row := if v in db.vaults then Some(db.vaults[v]) else None;
    match e
    case Joined(id, _, vaultId, slug) => if v == vaultId then Some(Vault(id, "Personal", slug, false)) else row
    case Created(account, vaultId, name, asked, slug, shared) =>
      if v == vaultId then Some(Vault(account, name, if asked.Some? then asked.value else slug, shared)) else row
    case Renamed(vaultId, newName, asked) =>
      if v == vaultId && row.Some?
      then Some(Vault(row.value.owner, if newName.Some? then newName.value else row.value.name,
                      if asked.Some? then asked.value else row.value.slug, row.value.shared))
      else row
    case HandedOver(seen, member) => if v == seen.id && row.Some? then Some(row.value.(owner := member)) else row
    case VaultDeleted(vaultId) => if v == vaultId then None else row
    case AccountDeleted(_, own) => if v in own then None else row
    case _ => row
  }

  /** Whether an address is invited to a vault after a call that succeeds. */
  ghost predicate InvitedAfter(db: Db, e: Event, v: VaultId, email: string) {
    match e
    case MemberInvited(seen, invited) => (v, email) in db.invitations || (v == seen.id && email == invited)
    case Withdrawn(seen, invited) => (v, email) in db.invitations && !(v == seen.id && email == invited)
    case Accepted(account, emails, order) =>
      (v, email) in db.invitations && !(email in emails && v in order && Reach(Next(db, e), v, account))
    case VaultDeleted(vaultId) => (v, email) in db.invitations && v != vaultId
    case AccountDeleted(_, own) => (v, email) in db.invitations && v !in own
    case _ => (v, email) in db.invitations
  }

  /** Every call leaves every vault's row as it should. */
  lemma VaultRowsMove(db: Db, e: Event, v: VaultId)
    requires Good(db) && Called(db, e) && Call(db, e).Done?
    ensures (if v in Next(db, e).vaults then Some(Next(db, e).vaults[v]) else None) == RowAfter(db, e, v)
  {
    if e.Accepted? {
      InvitedAreShared(db, e.account, e.emails, e.order);
      AcceptAllKeeps(db, e.account, e.emails, e.order);
    } else if e.AccountDeleted? {
      WithoutVaultsKeeps(db, e.own);
    } else if e.Joined? || e.Created? || e.Renamed? || e.HandedOver? || e.VaultDeleted? {
      VaultsMoveRows(db, e, v);
    } else {
      OthersKeepVaults(db, e, v);
    }
  }

  lemma VaultsMoveRows(db: Db, e: Event, v: VaultId)
    requires Call(db, e).Done? && (e.Joined? || e.Created? || e.Renamed? || e.HandedOver? || e.VaultDeleted?)
    ensures (if v in Next(db, e).vaults then Some(Next(db, e).vaults[v]) else None) == RowAfter(db, e, v)
  {
  }

  lemma OthersKeepVaults(db: Db, e: Event, v: VaultId)
    requires Call(db, e).Done? && !e.Accepted? && !e.AccountDeleted?
    requires !e.Joined? && !e.Created? && !e.Renamed? && !e.HandedOver? && !e.VaultDeleted?
    ensures (if v in Next(db, e).vaults then Some(Next(db, e).vaults[v]) else None) == RowAfter(db, e, v)
  {
  }

  lemma {:induction false} WithoutVaultsInvitations(db: Db, ids: seq<VaultId>)
    ensures WithoutVaults(db, ids).invitations == set i | i in db.invitations && i.0 !in ids
  {
    if ids != [] {
      var n := |ids| - 1;
      WithoutVaultsInvitations(db, ids[..n]);
      assert ids == ids[..n] + [ids[n]];
    }
  }

  lemma AcceptInvites(db: Db, account: AccountId, emails: set<string>, id: VaultId, v: VaultId, email: string)
    requires Good(db) && id in db.vaults
    ensures var after := Accept(db, account, emails, id);
      (v, email) in after.invitations <==>
      (v, email) in db.invitations && !(email in emails && v == id && Reach(after, v, account))
  {
    ClashIsReach(db, account, db.vaults[id].slug, id);
    assert (v, email).0 == v && (v, email).1 == email;
  }

  lemma {:induction false} AcceptingInvites(db: Db, account: AccountId, emails: set<string>, order: seq<VaultId>,
                                            v: VaultId, email: string)
    requires Good(db) && account in db.accounts
    requires forall i :: 0 <= i < |order| ==>
      order[i] in db.vaults && db.vaults[order[i]].shared && db.vaults[order[i]].owner != account
    ensures var after := AcceptAll(db, account, emails, order);
      (v, email) in after.invitations <==>
      (v, email) in db.invitations && !(email in emails && v in order && Reach(after, v, account))
  {
    if order != [] {
      var n := |order| - 1;
      var was, next := AcceptAll(db, account, emails, order[..n]), order[n];
      AcceptingReaches(db, account, emails, order[..n]);
      AcceptingInvites(db, account, emails, order[..n], v, email);
      AcceptReaches(was, account, emails, next);
      AcceptInvites(was, account, emails, next, v, email);
      assert order == order[..n] + [next];
    }
  }

  /** Invitations come with an invitation alone, and go when they are withdrawn or accepted, or with their vault. */
  lemma InvitationsMove(db: Db, e: Event, v: VaultId, email: string)
    requires Good(db) && Called(db, e) && Call(db, e).Done?
    ensures (v, email) in Next(db, e).invitations <==> InvitedAfter(db, e, v, email)
  {
    if e.Accepted? {
      InvitedAreShared(db, e.account, e.emails, e.order);
      AcceptingInvites(db, e.account, e.emails, e.order, v, email);
    } else if e.AccountDeleted? {
      WithoutVaultsInvitations(db, e.own);
    } else {
      RowsMoveInvitations(db, e, v, email);
    }
  }

  lemma RowsMoveInvitations(db: Db, e: Event, v: VaultId, email: string)
    requires Call(db, e).Done? && !e.Accepted? && !e.AccountDeleted?
    ensures (v, email) in Next(db, e).invitations <==> InvitedAfter(db, e, v, email)
  {
    assert (v, email).0 == v;
  }

  class HostedStore {
    var accounts: map<AccountId, Account>
    var vaults: map<VaultId, Vault>
    var members: set<(VaultId, AccountId)>
    var invitations: set<(VaultId, string)>
    var keys: map<Secret, ApiKey>
    var tokens: map<Secret, Token>
    var devices: map<Secret, Device>

    function Now(): Db
      reads this
    {
      Db(accounts, vaults, members, invitations, keys, tokens, devices)
    }

    constructor ()
      ensures Good(Now()) && Now() == Db(map[], map[], {}, {}, map[], map[], map[])
    {
      accounts, vaults, members, invitations, keys, tokens, devices := map[], map[], {}, {}, map[], map[], map[];
    }

    /** Registers an account with its first vault. */
    method Register(id: AccountId, account: Account, vaultId: VaultId, fold: string -> string)
      returns (slug: string, failure: Option<Error>)
      modifies this
      ensures FirstUsable({}, StemOf(fold, FIRST_VAULT_SLUG), slug)
      ensures Settled(AddAccount(old(Now()), id, account, vaultId, slug), old(Now()), failure, Now())
      ensures old(Good(Now())) && vaultId != "" ==> Good(Now())
    {
      ghost var before := Now();
      slug := FreeSlug(fold, {}, FIRST_VAULT_SLUG);
      failure := InsertAccount(id, account, vaultId, slug);
      if Good(before) && vaultId != "" && failure.None? {
        AddAccountKeeps(before, id, account, vaultId, slug);
      }
    }

    method InsertAccount(id: AccountId, account: Account, vaultId: VaultId, slug: string) returns (failure: Option<Error>)
      modifies this
      ensures Settled(AddAccount(old(Now()), id, account, vaultId, slug), old(Now()), failure, Now())
    {
      if '@' !in account.email {
        return Some(BadEmail);
      }
      if exists a :: a in accounts && accounts[a].email == account.email {
        return Some(Known);
      }
      if id in accounts || vaultId in vaults || OwnSlugTaken(Now(), id, slug, vaultId) {
        return Some(Integrity);
      }
      accounts := accounts[id := account];
      vaults := vaults[vaultId := Vault(id, "Personal", slug, false)];
      failure := None;
    }

    /** Makes a vault, at the slug asked for or at a free one near its name. */
    method MakeVault(account: AccountId, id: VaultId, name: string, asked: Option<string>, shared: bool, fold: string -> string)
      returns (slug: string, failure: Option<Error>)
      requires |vaults| < ROOM
      modifies this
      ensures asked.None? ==> FirstUsable(SlugsReached(old(Now()), {account}, ""), StemOf(fold, name), slug)
      ensures Settled(CreateVault(old(Now()), account, id, name, asked, slug, shared), old(Now()), failure, Now())
      ensures old(Good(Now())) && id != "" ==> Good(Now())
    {
      ghost var before := Now();
      if asked.Some? {
        slug := asked.value;
      } else {
        var taken := SlugsReached(Now(), {account}, "");
        SlugsAreFew(vaults, taken);
        slug := FreeSlug(fold, taken, name);
      }
      if name == "" {
        return slug, Some(BadName);
      }
      if asked.Some? && !ValidSlug(slug) {
        return slug, Some(BadSlug);
      }
      if Clash(Now(), {account}, slug, "") {
        return slug, Some(SlugTaken);
      }
      if account !in accounts || id in vaults || OwnSlugTaken(Now(), account, slug, id) {
        return slug, Some(Integrity);
      }
      vaults := vaults[id := Vault(account, name, slug, shared)];
      failure := None;
      if Good(before) && id != "" {
        CreateVaultKeeps(before, account, id, name, asked, slug, shared);
      }
    }

    method Rename(id: VaultId, name: Option<string>, slug: Option<string>) returns (failure: Option<Error>)
      modifies this
      ensures Settled(RenameVault(old(Now()), id, name, slug), old(Now()), failure, Now())
      ensures old(Good(Now())) ==> Good(Now())
    {
      ghost var before := Now();
      if id !in vaults {
        return Some(NoVault);
      }
      var vault := vaults[id];
      var cleaned := if name.Some? then name.value else vault.name;
      var address := if slug.Some? then slug.value else vault.slug;
      if cleaned == "" {
        return Some(BadName);
      }
      if !ValidSlug(address) {
        return Some(BadSlug);
      }
      if address != vault.slug {
        if Clash(Now(), {vault.owner}, address, id) {
          return Some(SlugTaken);
        }
        if Clash(Now(), Holders(Now(), id), address, id) {
          return Some(MemberHasSlug);
        }
      }
      if OwnSlugTaken(Now(), vault.owner, address, id) {
        return Some(Integrity);
      }
      vaults := vaults[id := vault.(name := cleaned, slug := address)];
      failure := None;
      if Good(before) {
        RenameKeeps(before, id, name, slug);
      }
    }

    /** Takes a member out of a vault, with every secret that account has for it. */
    method RemoveFrom(seen: Seen, account: AccountId) returns (removed: bool, failure: Option<Error>)
      modifies this
      ensures Settled(RemoveMember(old(Now()), seen, account), old(Now()), failure, Now())
      ensures removed <==> failure.None? && (seen.id, account) in old(members)
      ensures old(Good(Now())) ==> Good(Now())
      ensures failure.None? && old(Good(Now())) ==> forall v, a ::
                Reach(Now(), v, a) <==>
                old(Reach(Now(), v, a)) && !(v == seen.id && a == account && old(vaults)[v].owner != a)
    {
      ghost var before := Now();
      if account == seen.vault.owner {
        return false, Some(OwnerStays);
      }
      removed := (seen.id, account) in members;
      members := members - {(seen.id, account)};
      keys := KeysRevoked(keys, seen.id, account);
      tokens := TokensRevoked(tokens, seen.id, account);
      devices := map d | d in devices && devices[d] != Device(Some(account), Some(seen.id)) :: devices[d];
      failure := None;
      if Good(before) {
        RemoveMemberKeeps(before, seen, account);
        RemovalMovesOne(before, seen, account);
      }
    }

    /** Makes a member the owner; the owner that was read stays on as a member. */
    method HandTo(seen: Seen, account: AccountId) returns (failure: Option<Error>)
      modifies this
      ensures Settled(HandOver(old(Now()), seen, account), old(Now()), failure, Now())
      ensures old(Good(Now()) && Genuine(Now(), seen)) && failure.None? ==>
        (Good(Now()) <==> !OldOwnerClashes(old(Now()), seen))
    {
      ghost var before := Now();
      if account == seen.vault.owner || !Reaches(Now(), seen, account) {
        return Some(NotAMember);
      }
      if Clash(Now(), {account}, seen.vault.slug, seen.id) {
        return Some(SlugTaken);
      }
      if seen.id !in vaults || seen.vault.owner !in accounts || OwnSlugTaken(Now(), account, vaults[seen.id].slug, seen.id) {
        return Some(Integrity);
      }
      members := members - {(seen.id, account)};
      members := members + {(seen.id, seen.vault.owner)};
      vaults := vaults[seen.id := vaults[seen.id].(owner := account)];
      failure := None;
      if Good(before) && Genuine(before, seen) {
        HandOverKeepsExactly(before, seen, account);
      }
    }

    /** Accepts the invitations of some addresses in order; a vault whose slug the account already reaches waits. */
    method AcceptFor(account: AccountId, emails: set<string>, order: seq<VaultId>)
      returns (waiting: seq<VaultId>, failure: Option<Error>)
      requires forall i :: 0 <= i < |order| ==> order[i] in vaults && vaults[order[i]].owner != account
      modifies this
      ensures Settled(AcceptInvitations(old(Now()), account, emails, order), old(Now()), failure, Now())
      ensures failure.None? ==> forall i :: 0 <= i < |order| ==> order[i] in waiting || (order[i], account) in members
      ensures forall id :: id in waiting ==> id in order
    {
      waiting := [];
      if account !in accounts {
        return [], Some(Integrity);
      }
      for i := 0 to |order|
        invariant Now() == AcceptAll(old(Now()), account, emails, order[..i])
        invariant vaults == old(vaults)
        invariant forall k :: 0 <= k < i ==> order[k] in waiting || (order[k], account) in members
        invariant forall id :: id in waiting ==> id in order
      {
        assert order[..i + 1][..i] == order[..i];
        var id := order[i];
        if Clash(Now(), {account}, vaults[id].slug, id) {
          waiting := waiting + [id];
        } else {
          members := members + {(id, account)};
          invitations := set i | i in invitations && !(i.0 == id && i.1 in emails);
        }
      }
      assert order[..|order|] == order;
      failure := None;
    }

    method DropVault(id: VaultId)
      modifies this
      ensures Now() == WithoutVault(old(Now()), id)
    {
      keys := map k | k in keys && keys[k].vault != id :: keys[k];
      tokens := map t | t in tokens && tokens[t].vault != id :: tokens[t];
      devices := map d | d in devices && devices[d].vault != Some(id) :: devices[d];
      members := set m | m in members && m.0 != id;
      invitations := set i | i in invitations && i.0 != id;
      vaults := vaults - {id};
    }

    /** Deletes an account and its own vaults, unless one of them has other members. */
    method DropAccount(account: AccountId, own: seq<VaultId>) returns (failure: Option<Error>)
      modifies this
      ensures Settled(DeleteAccount(old(Now()), account, own), old(Now()), failure, Now())
    {
      if exists id :: id in own && SharedWithOthers(Now(), id) {
        return Some(StillShared);
      }
      DropVaults(own);
      members := set m | m in members && m.1 != account;
      keys := map k | k in keys && keys[k].account != account :: keys[k];
      tokens := map t | t in tokens && tokens[t].account != account :: tokens[t];
      devices := map d | d in devices && devices[d].account != Some(account) :: devices[d];
      accounts := accounts - {account};
      failure := None;
    }

    method DropVaults(own: seq<VaultId>)
      modifies this
      ensures Now() == WithoutVaults(old(Now()), own)
    {
      for i := 0 to |own|
        invariant Now() == WithoutVaults(old(Now()), own[..i])
      {
        assert own[..i + 1][..i] == own[..i];
        DropVault(own[i]);
      }
      assert own[..|own|] == own;
    }

    /** The grant of a key, for an account that still reaches the vault the key is bound to. */
    method GrantOf(secret: Secret) returns (grant: Option<ApiKey>)
      ensures grant == KeyGrant(Now(), secret)
      ensures grant.Some? && Good(Now()) ==> Reach(Now(), grant.value.vault, grant.value.account)
    {
      if secret !in keys || keys[secret].revoked {
        return None;
      }
      var key := keys[secret];
      if key.account !in accounts || key.vault !in vaults {
        return None;
      }
      grant := if Reaches(Now(), Seen(key.vault, vaults[key.vault]), key.account) then Some(key) else None;
    }
  }
}
