/**
 * The member list a session sees: the three restricted members are hidden
 * from a 'basic' login, everyone is shown otherwise. The login level is a
 * parameter (`None` when the auth context provides none).
 */
module MemberFilter {
  import opened Wrappers
  import opened Seqs
  import opened Catalog

  /** The ids hidden from a basic login. */
  const RESTRICTED_MEMBER_IDS: seq<string> := ["1", "2", "12"]

  /** The basic login's filter: the member is not restricted. */
  predicate Unrestricted(m: Member)
  {
    m.id !in RESTRICTED_MEMBER_IDS
  }

  /** `useFilteredMembers()` over the member list `members`. */
  function FilteredMembers(authLevel: Option<string>, members: seq<Member>): (r: seq<Member>)
    ensures authLevel != Some("basic") ==> r == members
    ensures authLevel == Some("basic") ==>
              forall i :: 0 <= i < |r| ==> r[i].id !in RESTRICTED_MEMBER_IDS
    ensures authLevel == Some("basic") ==>
              forall i :: 0 <= i < |members| && members[i].id !in RESTRICTED_MEMBER_IDS ==> members[i] in r
    ensures forall i :: 0 <= i < |r| ==> r[i] in members
  {
    if authLevel == Some("basic") then Filter(members, Unrestricted)
    else members
  }

  /** The filtered list keeps the members' order. */
  lemma FilteredKeepsOrder(authLevel: Option<string>, members: seq<Member>)
    ensures IsSubsequence(FilteredMembers(authLevel, members), members)
  {
    FilterIsSubsequence(members, Unrestricted);
    if authLevel != Some("basic") {
      SubsequenceRefl(members);
    }
  }

  /** A basic login sees a member exactly when the member is listed and not restricted. */
  lemma BasicMembership(members: seq<Member>, m: Member)
    ensures m in FilteredMembers(Some("basic"), members) <==> m in members && m.id !in RESTRICTED_MEMBER_IDS
  {
    if m in members && m.id !in RESTRICTED_MEMBER_IDS {
      var i :| 0 <= i < |members| && members[i] == m;
    }
  }

  /**
   * In the member list the restricted ids are those of the first, second
   * and twelfth members, so a basic login sees the other nineteen.
   */
  lemma RestrictedPositions()
    ensures forall i :: 0 <= i < |MEMBERS| ==>
              (MEMBERS[i].id in RESTRICTED_MEMBER_IDS <==> i == 0 || i == 1 || i == 11)
  {
  }
}
