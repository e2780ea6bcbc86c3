/** `Name`: member ids of the form object/member. */
module Names {

  const SLASH: char := '/'

  predicate SlashFree(s: string) {
    forall k | 0 <= k < |s| :: s[k] != SLASH
  }

  /** `find("/")`; `|s|` stands for `npos`. */
  function FindFirst(s: string): (i: nat)
    ensures i <= |s|
    ensures i < |s| ==> s[i] == SLASH
    ensures forall k | 0 <= k < i :: s[k] != SLASH
  {
    if s == [] || s[0] == SLASH then 0
    else
      assert forall k | 1 <= k < |s| :: s[k] == s[1..][k - 1];
      1 + FindFirst(s[1..])
  }

  /** `find_last_of("/")`; `|s|` stands for `npos`. */
  function FindLast(s: string): (i: nat)
    ensures i <= |s|
    ensures i < |s| ==> s[i] == SLASH && forall k | i < k < |s| :: s[k] != SLASH
    ensures i == |s| ==> SlashFree(s)
  {
    if s == [] then 0
    else
      assert forall k | 1 <= k < |s| :: s[k] == s[1..][k - 1];
      var later := FindLast(s[1..]);
      if later < |s| - 1 then 1 + later
      else if s[0] == SLASH then 0
      else |s|
  }

  function GetObjectId(memberId: string): string {
    memberId[..FindFirst(memberId)]
  }

  function GetMemberName(memberId: string): string {
    if IsMemberId(memberId) then memberId[FindLast(memberId) + 1..] else ""
  }

  predicate IsMemberId(id: string) {
    FindFirst(id) < |id| && FindFirst(id) == FindLast(id)
  }

  function CreateMemberId(objectId: string, memberName: string): string {
    objectId + [SLASH] + memberName
  }

  ghost function CountSlashes(s: string): nat {
    multiset(s)[SLASH]
  }

  lemma SlashFreeHasNone(s: string)
    ensures SlashFree(s) <==> CountSlashes(s) == 0
  {
  }

  lemma SplitAt(s: string, i: nat)
    requires i < |s| && s[i] == SLASH
    ensures s == CreateMemberId(s[..i], s[i + 1..])
    ensures CountSlashes(s) == CountSlashes(s[..i]) + 1 + CountSlashes(s[i + 1..])
  {
  }

  /** The first slash of a joined id is the joint, when the object part has none. */
  lemma FirstSlashIsTheJoint(objectId: string, memberName: string)
    ensures SlashFree(objectId) <==> FindFirst(CreateMemberId(objectId, memberName)) == |objectId|
    ensures FindFirst(CreateMemberId(objectId, memberName)) <= |objectId|
  {
    var s := CreateMemberId(objectId, memberName);
    assert s[|objectId|] == SLASH;
    assert forall k | 0 <= k < |objectId| :: s[k] == objectId[k];
  }

  lemma LastSlashIsTheJoint(objectId: string, memberName: string)
    requires SlashFree(memberName)
    ensures FindLast(CreateMemberId(objectId, memberName)) == |objectId|
  {
    var s := CreateMemberId(objectId, memberName);
    assert s[|objectId|] == SLASH;
    assert forall k | |objectId| < k < |s| :: s[k] == memberName[k - |objectId| - 1];
  }

  /** A member id is a string with exactly one slash. */
  lemma MemberIdIffOneSlash(s: string)
    ensures IsMemberId(s) <==> CountSlashes(s) == 1
  {
    var i, j := FindFirst(s), FindLast(s);
    SlashFreeHasNone(s);
    if i < |s| {
      SplitAt(s, i);
      SlashFreeHasNone(s[..i]);
      SlashFreeHasNone(s[i + 1..]);
      assert j <= i || s[i + 1..][j - i - 1] == SLASH;
    } else {
      assert SlashFree(s);
    }
  }

  /** Joining the parts of a member id gives it back. */
  lemma JoinInvertsSplit(s: string)
    requires IsMemberId(s)
    ensures CreateMemberId(GetObjectId(s), GetMemberName(s)) == s
    ensures SlashFree(GetObjectId(s)) && SlashFree(GetMemberName(s))
  {
  }

  /** A string without a slash is an object id as it is; what is no member id has no member name. */
  lemma OtherIdsHaveNoMember(s: string)
    ensures SlashFree(s) ==> GetObjectId(s) == s
    ensures CountSlashes(s) != 1 ==> GetMemberName(s) == ""
  {
    MemberIdIffOneSlash(s);
  }

  /** Splitting a joined id gives the object back exactly when the object has no slash,
      whatever the member part is. */
  lemma SplitGivesObject(objectId: string, memberName: string)
    ensures GetObjectId(CreateMemberId(objectId, memberName)) == objectId <==> SlashFree(objectId)
  {
    FirstSlashIsTheJoint(objectId, memberName);
  }

  /** It gives the member back exactly when neither part has a slash, or the member is empty. */
  lemma SplitGivesMember(objectId: string, memberName: string)
    ensures GetMemberName(CreateMemberId(objectId, memberName)) == memberName <==>
            memberName == "" || (SlashFree(objectId) && SlashFree(memberName))
  {
    var s := CreateMemberId(objectId, memberName);
    MemberIdIffOneSlash(s);
    SplitAt(s, |objectId|);
    assert s[..|objectId|] == objectId && s[|objectId| + 1..] == memberName;
    SlashFreeHasNone(objectId);
    SlashFreeHasNone(memberName);
    if SlashFree(memberName) { LastSlashIsTheJoint(objectId, memberName); }
  }
}
