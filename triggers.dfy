/** The easter-egg table at the head of `filterGames`: exact query strings,
    tested in a fixed order, that switch the page's two mode flags. The
    progress bar that some branches start is collapsed into its completion. */
module Triggers {

  /** `isAdminModeActive` and `isDominationMode`. */
  datatype Flags = Flags(adminActive: bool, domination: bool)

  /** What `filterGames` does with a query. */
  datatype Action =
    | RevealHint       // "alura code" with admin active: show the hint, clear the query, re-filter
    | DenyAccess       // "alura code" otherwise: error screen, then reset
    | GrantAdmin       // the admin password: success screen, then admin on and reset
    | EnterDomination  // the final password with admin active: load and show the secrets
    | Search           // no trigger: filter the cards with the query

  datatype Transition = Transition(flags: Flags, action: Action)

  const HintPhrase: string := "alura code"
  const AdminPassword: string := "senhaforte12"
  const DominationPassword: string := "aprender na alura com ia google"

  const Initial := Flags(false, false)

  /** A query that triggers something, whatever the flags. */
  predicate IsTrigger(f: Flags, query: string) {
    query == HintPhrase || query == AdminPassword
    || (f.adminActive && query == DominationPassword)
  }

  /** One run of `filterGames` on an already trimmed, lower-cased query: the
      flags once any progress bar it starts has completed, and the branch taken. */
  function Dispatch(f: Flags, query: string): (t: Transition)
    ensures f.adminActive ==> t.flags.adminActive
    ensures f.domination ==> t.flags.domination
    ensures t.action == Search <==> !IsTrigger(f, query)
    ensures t.action in {Search, RevealHint, DenyAccess} ==> t.flags == f
    ensures t.flags.domination ==> f.domination || f.adminActive
    ensures t.action == GrantAdmin ==> t.flags == f.(adminActive := true)
    ensures t.action == EnterDomination ==> f.adminActive && t.flags == f.(domination := true)
  {
    if query == HintPhrase then
      if f.adminActive then Transition(f, RevealHint) else Transition(f, DenyAccess)
    else if query == AdminPassword then
      Transition(f.(adminActive := true), GrantAdmin)
    else if f.adminActive && query == DominationPassword then
      Transition(f.(domination := true), EnterDomination)
    else
      Transition(f, Search)
  }

  /** "alura code" with admin active reveals the hint and changes no flag;
      without admin it denies access and changes no flag either. */
  lemma HintPhraseKeepsFlags(f: Flags)
    ensures Dispatch(f, HintPhrase).flags == f
    ensures Dispatch(f, HintPhrase).action == if f.adminActive then RevealHint else DenyAccess
  {
  }

  /** The admin password always ends with admin active. */
  lemma AdminPasswordGrants(f: Flags)
    ensures Dispatch(f, AdminPassword) == Transition(f.(adminActive := true), GrantAdmin)
  {
  }

  /** The final password sets domination exactly when admin is already active. */
  lemma DominationNeedsAdmin(f: Flags)
    ensures Dispatch(f, DominationPassword).flags.domination <==> f.adminActive || f.domination
    ensures Dispatch(f, DominationPassword).action == EnterDomination <==> f.adminActive
  {
  }

  /** The flags after a sequence of queries typed one after another. */
  function Run(f: Flags, queries: seq<string>): (r: Flags)
    ensures f.adminActive ==> r.adminActive
    ensures f.domination ==> r.domination
    decreases |queries|
  {
    if queries == [] then f else Run(Dispatch(f, queries[0]).flags, queries[1..])
  }

  /** No step ever sets a flag back to false. */
  lemma {:induction false} RunMonotone(f: Flags, queries: seq<string>, k: nat)
    requires k <= |queries|
    ensures Run(f, queries[..k]).adminActive ==> Run(f, queries).adminActive
    ensures Run(f, queries[..k]).domination ==> Run(f, queries).domination
    decreases k
  {
    if k > 0 {
      RunMonotone(Dispatch(f, queries[0]).flags, queries[1..], k - 1);
      assert queries[..k][1..] == queries[1..][..k - 1];
    }
  }

  /** Domination is only ever reached with admin active. */
  lemma {:induction false} DominationImpliesAdmin(f: Flags, queries: seq<string>)
    requires f.domination ==> f.adminActive
    ensures Run(f, queries).domination ==> Run(f, queries).adminActive
    decreases |queries|
  {
    if queries != [] {
      DominationImpliesAdmin(Dispatch(f, queries[0]).flags, queries[1..]);
    }
  }

  /** From the initial flags, admin mode is only reached by typing the admin password. */
  lemma {:induction false} AdminNeedsPassword(f: Flags, queries: seq<string>)
    ensures Run(f, queries).adminActive ==> f.adminActive || AdminPassword in queries
    decreases |queries|
  {
    if queries != [] {
      AdminNeedsPassword(Dispatch(f, queries[0]).flags, queries[1..]);
      assert forall q :: q in queries[1..] ==> q in queries;
    }
  }

  /** An empty query triggers nothing, so the hint branch's re-filter is a plain search. */
  lemma EmptyQuerySearches(f: Flags)
    ensures Dispatch(f, "") == Transition(f, Search)
  {
  }
}
