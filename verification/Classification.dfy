/** Data classification as a join over evidence, and the egress policy that is evaluated on the joined bundle. */
module Classification {
  import opened Wrappers
  import opened SortedStrings
  import Sorting
  import Text

  /** A normalized level; names that are not known keep their text and rank with Restricted. */
  datatype Level = Public | Internal | Confidential | Restricted | UnknownLevel(text: string)

  datatype Source = NoSource | DefaultSource | ContentDetection | Inherited | OtherSource(text: string)

  /** Level and tags as they are written; a classification of the code's own making holds normalized ones. */
  datatype DataClassification = DataClassification(
    level: string, tags: seq<string>, source: Source, policyVersion: string)

  datatype Merged = Merged(level: Level, tags: seq<string>, source: Source, policyVersion: string)

  const POLICY_VERSION := "fluxseer-rca-data-classification-v1"

  function NormalizeLevel(level: string): Level {
    var lower := Text.ToLower(Text.TrimSpace(level));
    if lower == "public" then Public
    else if lower == "internal" || lower == "" then Internal
    else if lower == "confidential" then Confidential
    else if lower == "restricted" then Restricted
    else UnknownLevel(Text.TrimSpace(level))
  }

  function Rank(level: Level): int {
    match level
    case Public => 0
    case Internal => 1
    case Confidential => 2
    case Restricted => 3
    case UnknownLevel(_) => 3
  }

  function NormalizeTag(tag: string): string {
    var lower := Text.ToLower(Text.TrimSpace(tag));
    if lower == "credentiallike" || lower == "secretlike" then "CredentialLike"
    else if lower == "personaldata" then "PersonalData"
    else if lower == "customerdata" then "CustomerData"
    else if lower == "sourcecode" then "SourceCode"
    else if lower == "infrastructuremetadata" then "InfrastructureMetadata"
    else if lower == "securitysensitive" then "SecuritySensitive"
    else Text.TrimSpace(tag)
  }

  // ------------------------------------------------------------------------- merge

  function LevelAfter(items: seq<DataClassification>): Level {
    if items == [] then Internal
    else
      var before, item := LevelAfter(items[..|items| - 1]), items[|items| - 1];
      if Text.TrimSpace(item.level) != "" && Rank(NormalizeLevel(item.level)) > Rank(before)
      then NormalizeLevel(item.level) else before
  }

  /** The last source that is given and not the default one. */
  function SourceAfter(items: seq<DataClassification>): Source {
    if items == [] then DefaultSource
    else
      var source := items[|items| - 1].source;
      if source != NoSource && source != DefaultSource then source else SourceAfter(items[..|items| - 1])
  }

  /** The last policy version that is given. */
  function VersionAfter(items: seq<DataClassification>): string {
    if items == [] then POLICY_VERSION
    else if Text.TrimSpace(items[|items| - 1].policyVersion) != "" then items[|items| - 1].policyVersion
    else VersionAfter(items[..|items| - 1])
  }

  /** Item i is the last that gives a source other than the default one. */
  predicate LastSource(items: seq<DataClassification>, i: int) {
    0 <= i < |items| && items[i].source !in {NoSource, DefaultSource}
    && forall j :: i < j < |items| ==> items[j].source in {NoSource, DefaultSource}
  }

  /** Item i is the last that gives a policy version. */
  predicate LastVersion(items: seq<DataClassification>, i: int) {
    0 <= i < |items| && Text.TrimSpace(items[i].policyVersion) != ""
    && forall j :: i < j < |items| ==> Text.TrimSpace(items[j].policyVersion) == ""
  }

  /** The merged source is the last one given, and the default one if none is. */
  lemma {:induction false} LastSourceStays(items: seq<DataClassification>)
    ensures forall i :: LastSource(items, i) ==> SourceAfter(items) == items[i].source
    ensures (forall i :: 0 <= i < |items| ==> items[i].source in {NoSource, DefaultSource}) ==>
              SourceAfter(items) == DefaultSource
  {
    if items != [] && items[|items| - 1].source in {NoSource, DefaultSource} {
      var front, n := items[..|items| - 1], |items| - 1;
      LastSourceStays(front);
      forall i | LastSource(items, i)
        ensures SourceAfter(items) == items[i].source
      {
        assert LastSource(front, i);
      }
    }
  }

  /** The merged policy version is the last one given, and that of this program if none is. */
  lemma {:induction false} LastVersionStays(items: seq<DataClassification>)
    ensures forall i :: LastVersion(items, i) ==> VersionAfter(items) == items[i].policyVersion
    ensures (forall i :: 0 <= i < |items| ==> Text.TrimSpace(items[i].policyVersion) == "") ==>
              VersionAfter(items) == "fluxseer-rca-data-classification-v1"
  {
    hide Text.TrimSpace;
    if items != [] && Text.TrimSpace(items[|items| - 1].policyVersion) == "" {
      var front, n := items[..|items| - 1], |items| - 1;
      LastVersionStays(front);
      forall i | LastVersion(items, i)
        ensures VersionAfter(items) == items[i].policyVersion
      {
        assert LastVersion(front, i);
      }
    }
  }

  /** Some item carries this normalized tag. */
  predicate Tagged(items: seq<DataClassification>, tag: string) {
    tag != "" && exists i :: 0 <= i < |items| && Carries(items[i], tag)
  }

  predicate Carries(item: DataClassification, tag: string) {
    exists k :: 0 <= k < |item.tags| && NormalizeTag(item.tags[k]) == tag
  }

  method SortedKeys(keys: set<string>) returns (out: seq<string>)
    ensures Distinct(out) && Sorting.SortedBy(out, Text.Less) && forall x :: x in out <==> x in keys
  {
    hide Text.Less;
    var pending := keys;
    out := [];
    while pending != {}
      invariant Distinct(out) && forall x :: x in keys <==> x in pending || x in out
      invariant forall x :: x in pending ==> x !in out
    {
      var key :| key in pending;
      out := out + [key];
      pending := pending - {key};
    }
    SortKeepsDistinct(out);
    out := Sorting.StableSort(out, Text.Less);
  }

  method Merge(items: seq<DataClassification>) returns (out: Merged)
    ensures out.level == LevelAfter(items)
    ensures out.source == SourceAfter(items) && out.policyVersion == VersionAfter(items)
    ensures Distinct(out.tags) && Sorting.SortedBy(out.tags, Text.Less)
    ensures forall tag :: tag in out.tags <==> Tagged(items, tag)
  {
    hide NormalizeLevel, NormalizeTag, Text.TrimSpace, Carries, Text.Less;
    out := Merged(Internal, [], DefaultSource, POLICY_VERSION);
    var tags: set<string> := {};
    for i := 0 to |items|
      invariant out.level == LevelAfter(items[..i])
      invariant out.source == SourceAfter(items[..i]) && out.policyVersion == VersionAfter(items[..i])
      invariant forall tag :: tag in tags <==> Tagged(items[..i], tag)
    {
      assert items[..i + 1][..i] == items[..i];
      var item := items[i];
      if Text.TrimSpace(item.level) != "" && Rank(NormalizeLevel(item.level)) > Rank(out.level) {
        out := out.(level := NormalizeLevel(item.level));
      }
      if item.source != NoSource && item.source != DefaultSource {
        out := out.(source := item.source);
      }
      if Text.TrimSpace(item.policyVersion) != "" {
        out := out.(policyVersion := item.policyVersion);
      }
      var own := NormalizedTags(item);
      tags := tags + own;
      assert forall tag :: Tagged(items[..i + 1], tag) <==> Tagged(items[..i], tag) || (tag != "" && Carries(item, tag)) by {
        TaggedNext(items, i);
      }
    }
    assert items[..|items|] == items;
    var sorted := SortedKeys(tags);
    out := out.(tags := sorted);
  }

  lemma TaggedNext(items: seq<DataClassification>, i: nat)
    requires i < |items|
    ensures forall tag :: Tagged(items[..i + 1], tag) <==>
                          Tagged(items[..i], tag) || (tag != "" && Carries(items[i], tag))
  {
    hide Carries;
    var longer, shorter := items[..i + 1], items[..i];
    assert forall j :: 0 <= j < i ==> longer[j] == shorter[j];
    assert longer[i] == items[i];
  }

  method NormalizedTags(item: DataClassification) returns (tags: set<string>)
    ensures forall tag :: tag in tags <==> tag != "" && Carries(item, tag)
  {
    hide NormalizeTag;
    tags := {};
    for k := 0 to |item.tags|
      invariant forall tag :: tag in tags <==> tag != "" && exists j :: 0 <= j < k && NormalizeTag(item.tags[j]) == tag
    {
      var normalized := NormalizeTag(item.tags[k]);
      if normalized == "" {
        continue;
      }
      tags := tags + {normalized};
    }
  }

  function RankOf(item: DataClassification): int {
    Rank(NormalizeLevel(item.level))
  }

  /** The rank of the merged level is the maximum of Internal and all inputs. */
  lemma {:induction false} MergedRankIsTheMaximum(items: seq<DataClassification>)
    ensures Rank(LevelAfter(items)) >= Rank(Internal)
    ensures forall i :: 0 <= i < |items| ==> Rank(LevelAfter(items)) >= RankOf(items[i])
    ensures LevelAfter(items) == Internal || exists i :: 0 <= i < |items| && LevelAfter(items) == NormalizeLevel(items[i].level)
  {
    hide NormalizeLevel, Text.TrimSpace;
    if items != [] {
      var front, n := items[..|items| - 1], |items| - 1;
      MergedRankIsTheMaximum(front);
      assert forall i :: 0 <= i < n ==> front[i] == items[i];
      BlankIsInternal(items[n].level);
    }
  }

  lemma BlankIsInternal(level: string)
    ensures Text.TrimSpace(level) == "" ==> NormalizeLevel(level) == Internal
  {
  }

  /** More items never lower the rank. */
  lemma SubBundleRanksNoHigher(sub: seq<DataClassification>, items: seq<DataClassification>)
    requires forall x :: x in sub ==> x in items
    ensures Rank(LevelAfter(sub)) <= Rank(LevelAfter(items))
  {
    hide NormalizeLevel, LevelAfter;
    MergedRankIsTheMaximum(sub);
    MergedRankIsTheMaximum(items);
    if i :| 0 <= i < |sub| && LevelAfter(sub) == NormalizeLevel(sub[i].level) {
      assert sub[i] in items;
      var j :| 0 <= j < |items| && items[j] == sub[i];
      assert RankOf(items[j]) == Rank(LevelAfter(sub));
    }
  }

  lemma SubBundleTags(sub: seq<DataClassification>, items: seq<DataClassification>, tag: string)
    requires (forall x :: x in sub ==> x in items) && Tagged(sub, tag)
    ensures Tagged(items, tag)
  {
    hide Carries;
    var i :| 0 <= i < |sub| && Carries(sub[i], tag);
    assert sub[i] in items;
    var j :| 0 <= j < |items| && items[j] == sub[i];
  }

  /** Rank and tags of a merge do not depend on the order or the repetition of its inputs. */
  lemma MergeIgnoresOrder(a: seq<DataClassification>, b: seq<DataClassification>, x: seq<string>, y: seq<string>)
    requires forall c :: c in a <==> c in b
    requires Distinct(x) && Sorting.SortedBy(x, Text.Less) && forall tag :: tag in x <==> Tagged(a, tag)
    requires Distinct(y) && Sorting.SortedBy(y, Text.Less) && forall tag :: tag in y <==> Tagged(b, tag)
    ensures Rank(LevelAfter(a)) == Rank(LevelAfter(b)) && x == y
  {
    hide LevelAfter, Tagged, Text.Less;
    SubBundleRanksNoHigher(a, b);
    SubBundleRanksNoHigher(b, a);
    forall tag
      ensures tag in x <==> tag in y
    {
      if Tagged(a, tag) {
        SubBundleTags(a, b, tag);
      }
      if Tagged(b, tag) {
        SubBundleTags(b, a, tag);
      }
    }
    SortedStringsAreUnique(x, y);
  }

  /** The items that share the highest rank all say the same. */
  ghost predicate OneTopLevel(items: seq<DataClassification>) {
    forall a, b :: a in items && b in items && RankOf(a) == 3 && RankOf(b) == 3 ==>
      NormalizeLevel(a.level) == NormalizeLevel(b.level)
  }

  ghost predicate LevelIgnoresOrder(items: seq<DataClassification>) {
    forall others: seq<DataClassification> :: multiset(others) == multiset(items) ==>
      LevelAfter(others) == LevelAfter(items)
  }

  /** Below the highest rank there is one level of each rank. */
  lemma RankNamesTheLevel(a: Level, b: Level)
    requires Rank(a) == Rank(b) < 3
    ensures a == b
  {
  }

  lemma SameTopSameLevel(items: seq<DataClassification>, others: seq<DataClassification>)
    requires OneTopLevel(items) && multiset(others) == multiset(items)
    ensures LevelAfter(others) == LevelAfter(items)
  {
    hide LevelAfter, NormalizeLevel, Rank;
    Sorting.SameMembers(items, others);
    SubBundleRanksNoHigher(items, others);
    SubBundleRanksNoHigher(others, items);
    MergedRankIsTheMaximum(items);
    MergedRankIsTheMaximum(others);
    if Rank(LevelAfter(items)) < 3 {
      RankNamesTheLevel(LevelAfter(items), LevelAfter(others));
    } else {
      InternalIsLow();
      RankIsBounded(LevelAfter(items));
      var i :| 0 <= i < |items| && LevelAfter(items) == NormalizeLevel(items[i].level);
      var j :| 0 <= j < |others| && LevelAfter(others) == NormalizeLevel(others[j].level);
      assert items[i] in items && others[j] in items;
    }
  }

  lemma InternalIsLow()
    ensures Rank(Internal) < 3
  {
  }

  lemma RankIsBounded(level: Level)
    ensures 0 <= Rank(level) <= 3
  {
  }

  /** An item of the highest rank that comes first gives its level. */
  lemma {:induction false} FirstTopWins(items: seq<DataClassification>)
    requires items != [] && RankOf(items[0]) == 3
    ensures LevelAfter(items) == NormalizeLevel(items[0].level)
  {
    hide NormalizeLevel, Text.TrimSpace, Rank;
    InternalIsLow();
    BlankIsInternal(items[0].level);
    var front := items[..|items| - 1];
    if front == [] {
      assert LevelAfter(front) == Internal;
    } else {
      FirstTopWins(front);
      RankIsBounded(NormalizeLevel(items[|items| - 1].level));
    }
  }

  /** With an item of the highest rank in front the bundle has its level. */
  lemma FrontedTop(items: seq<DataClassification>, i: nat) returns (others: seq<DataClassification>)
    requires i < |items| && RankOf(items[i]) == 3
    ensures multiset(others) == multiset(items) && LevelAfter(others) == NormalizeLevel(items[i].level)
  {
    hide NormalizeLevel, Rank, LevelAfter;
    others := [items[i]] + (items[..i] + items[i + 1..]);
    Sorting.FrontPermutes(items, i);
    FirstTopWins(others);
  }

  /** The merged level does not depend on the order exactly when all items of the highest rank name the same level. */
  lemma LevelIgnoresOrderExactlyWhen(items: seq<DataClassification>)
    ensures LevelIgnoresOrder(items) <==> OneTopLevel(items)
  {
    hide NormalizeLevel, Rank, LevelAfter;
    if OneTopLevel(items) {
      forall others: seq<DataClassification> | multiset(others) == multiset(items)
        ensures LevelAfter(others) == LevelAfter(items)
      {
        SameTopSameLevel(items, others);
      }
    }
    if LevelIgnoresOrder(items) {
      forall a, b | a in items && b in items && RankOf(a) == 3 && RankOf(b) == 3
        ensures NormalizeLevel(a.level) == NormalizeLevel(b.level)
      {
        var i :| 0 <= i < |items| && items[i] == a;
        var j :| 0 <= j < |items| && items[j] == b;
        var first := FrontedTop(items, i);
        var second := FrontedTop(items, j);
      }
    }
  }

  // ------------------------------------------------------------------------ the policy

  datatype DataPolicy = DataPolicy(
    allowExternal: bool, maximum: string, deniedTags: seq<string>, requireRedaction: bool,
    allowedKinds: seq<string>, allowLogSamples: bool)

  datatype Ref = Ref(
    id: string, kind: string, summary: string, query: string, link: string,
    classification: Option<DataClassification>, redactionProfile: string)

  datatype Reason = Allowed | ClassificationExceeded | SensitivityTagDenied | RedactionRequired

  /** The classification that a kind and a text are given when evidence carries none. */
  type Defaults = (string, string) -> DataClassification

  function ClassificationOf(defaults: Defaults, ref: Ref): DataClassification {
    match ref.classification
    case Some(c) => c
    case None => defaults(ref.kind, ref.summary)
  }

  function Classifications(defaults: Defaults, refs: seq<Ref>): (items: seq<DataClassification>)
    ensures |items| == |refs| && forall i :: 0 <= i < |refs| ==> items[i] == ClassificationOf(defaults, refs[i])
  {
    seq(|refs|, i requires 0 <= i < |refs| => ClassificationOf(defaults, refs[i]))
  }

  /** A tag of the bundle that the policy denies; both sides are normalized before they are compared. */
  predicate Denies(policy: DataPolicy, tag: string) {
    exists k :: 0 <= k < |policy.deniedTags| && NormalizeTag(policy.deniedTags[k]) != ""
                && NormalizeTag(policy.deniedTags[k]) == NormalizeTag(tag)
  }

  predicate AnyDenied(defaults: Defaults, policy: DataPolicy, refs: seq<Ref>) {
    exists i :: 0 <= i < |refs| && DeniesRef(policy, ClassificationOf(defaults, refs[i]))
  }

  predicate DeniesRef(policy: DataPolicy, c: DataClassification) {
    exists k :: 0 <= k < |c.tags| && NormalizeTag(c.tags[k]) != "" && Denies(policy, NormalizeTag(c.tags[k]))
  }

  predicate Redacted(refs: seq<Ref>) {
    forall i :: 0 <= i < |refs| ==> Text.TrimSpace(refs[i].redactionProfile) != ""
  }

  function Decide(defaults: Defaults, policy: DataPolicy, refs: seq<Ref>): Reason {
    if Rank(LevelAfter(Classifications(defaults, refs))) > Rank(NormalizeLevel(policy.maximum)) then ClassificationExceeded
    else if AnyDenied(defaults, policy, refs) then SensitivityTagDenied
    else if policy.requireRedaction && !Redacted(refs) then RedactionRequired
    else Allowed
  }

  /** The four names of levels, in any case and with blanks around them; no name means internal. */
  lemma LevelsByName(level: string)
    ensures var name := Text.ToLower(Text.TrimSpace(level));
            && (NormalizeLevel(level) == Public <==> name == "public")
            && (NormalizeLevel(level) == Internal <==> name in {"", "internal"})
            && (NormalizeLevel(level) == Confidential <==> name == "confidential")
            && (NormalizeLevel(level) == Restricted <==> name == "restricted")
            && (NormalizeLevel(level).UnknownLevel? ==> NormalizeLevel(level).text == Text.TrimSpace(level))
  {
  }

  /** The names of the known tags, in any case and with blanks around them; any other tag is its trimmed self. */
  lemma TagsByName(tag: string)
    ensures var name := Text.ToLower(Text.TrimSpace(tag));
            NormalizeTag(tag) ==
            if name in {"credentiallike", "secretlike"} then "CredentialLike"
            else if name in {"personaldata", "customerdata", "sourcecode", "infrastructuremetadata", "securitysensitive"} then
              map["personaldata" := "PersonalData", "customerdata" := "CustomerData", "sourcecode" := "SourceCode",
                  "infrastructuremetadata" := "InfrastructureMetadata", "securitysensitive" := "SecuritySensitive"][name]
            else Text.TrimSpace(tag)
  {
  }

  /** Public, internal and confidential are in this order, and anything else is above them. */
  predicate AtMost(level: Level, maximum: Level) {
    match maximum
    case Public => level.Public?
    case Internal => level.Public? || level.Internal?
    case Confidential => level.Public? || level.Internal? || level.Confidential?
    case _ => true
  }

  lemma AtMostExactlyWhen(level: Level, maximum: Level)
    ensures Rank(level) <= Rank(maximum) <==> AtMost(level, maximum)
  {
  }

  /** Every reference is within the maximum, and so is internal, where the bundle starts. */
  ghost predicate WithinMaximum(defaults: Defaults, policy: DataPolicy, refs: seq<Ref>) {
    var maximum := NormalizeLevel(policy.maximum);
    maximum != Public
    && forall i :: 0 <= i < |refs| ==> AtMost(NormalizeLevel(ClassificationOf(defaults, refs[i]).level), maximum)
  }

  /** Tag k of reference i is denied tag j, both in normal form. */
  predicate DeniedAt(defaults: Defaults, policy: DataPolicy, refs: seq<Ref>, i: int, k: int, j: int) {
    0 <= i < |refs| && 0 <= k < |ClassificationOf(defaults, refs[i]).tags| && 0 <= j < |policy.deniedTags|
    && NormalizeTag(policy.deniedTags[j]) != ""
    && NormalizeTag(NormalizeTag(ClassificationOf(defaults, refs[i]).tags[k])) == NormalizeTag(policy.deniedTags[j])
    && NormalizeTag(ClassificationOf(defaults, refs[i]).tags[k]) != ""
  }

  lemma WithinExactlyWhen(defaults: Defaults, policy: DataPolicy, refs: seq<Ref>)
    ensures Rank(LevelAfter(Classifications(defaults, refs))) <= Rank(NormalizeLevel(policy.maximum)) <==>
            WithinMaximum(defaults, policy, refs)
  {
    hide NormalizeLevel, LevelAfter;
    var items, maximum := Classifications(defaults, refs), NormalizeLevel(policy.maximum);
    MergedRankIsTheMaximum(items);
    forall i | 0 <= i < |refs|
      ensures RankOf(items[i]) <= Rank(maximum) <==> AtMost(NormalizeLevel(items[i].level), maximum)
    {
      AtMostExactlyWhen(NormalizeLevel(items[i].level), maximum);
    }
  }

  lemma DeniedExactlyWhen(defaults: Defaults, policy: DataPolicy, refs: seq<Ref>)
    ensures AnyDenied(defaults, policy, refs) <==> exists i, k, j :: DeniedAt(defaults, policy, refs, i, k, j)
  {
    hide NormalizeTag;
    if i, k, j :| DeniedAt(defaults, policy, refs, i, k, j) {
      assert Denies(policy, NormalizeTag(ClassificationOf(defaults, refs[i]).tags[k]));
      assert DeniesRef(policy, ClassificationOf(defaults, refs[i]));
    }
    if i :| 0 <= i < |refs| && DeniesRef(policy, ClassificationOf(defaults, refs[i])) {
      var c := ClassificationOf(defaults, refs[i]);
      var k :| 0 <= k < |c.tags| && NormalizeTag(c.tags[k]) != "" && Denies(policy, NormalizeTag(c.tags[k]));
      var j :| 0 <= j < |policy.deniedTags| && NormalizeTag(policy.deniedTags[j]) != ""
               && NormalizeTag(policy.deniedTags[j]) == NormalizeTag(NormalizeTag(c.tags[k]));
      assert DeniedAt(defaults, policy, refs, i, k, j);
    }
  }

  /**
    Evidence may be sent exactly when every reference is within the maximum, none carries a denied tag, and all are
    redacted if that is required. A maximum of public allows nothing, since a bundle is never below internal.
   */
  lemma AllowedExactlyWhen(defaults: Defaults, policy: DataPolicy, refs: seq<Ref>)
    ensures Decide(defaults, policy, refs) == Allowed <==>
            WithinMaximum(defaults, policy, refs)
            && (forall i, k, j :: !DeniedAt(defaults, policy, refs, i, k, j))
            && (policy.requireRedaction ==> forall i :: 0 <= i < |refs| ==> Text.TrimSpace(refs[i].redactionProfile) != "")
    ensures Decide(defaults, policy, refs) == ClassificationExceeded <==> !WithinMaximum(defaults, policy, refs)
    ensures Decide(defaults, policy, refs) == SensitivityTagDenied <==>
            WithinMaximum(defaults, policy, refs) && exists i, k, j :: DeniedAt(defaults, policy, refs, i, k, j)
  {
    hide NormalizeLevel, LevelAfter, Text.TrimSpace, DeniedAt, WithinMaximum, AnyDenied, Rank;
    WithinExactlyWhen(defaults, policy, refs);
    DeniedExactlyWhen(defaults, policy, refs);
  }

  method DeniedTag(tags: seq<string>, policy: DataPolicy) returns (denied: Option<string>)
    ensures denied.Some? <==> exists i :: 0 <= i < |tags| && Denies(policy, tags[i])
  {
    hide NormalizeTag;
    var deniedSet: set<string> := {};
    for k := 0 to |policy.deniedTags|
      invariant forall t :: t in deniedSet <==> t != "" && exists j :: 0 <= j < k && NormalizeTag(policy.deniedTags[j]) == t
    {
      var normalized := NormalizeTag(policy.deniedTags[k]);
      if normalized != "" {
        deniedSet := deniedSet + {normalized};
      }
    }
    for i := 0 to |tags|
      invariant forall j :: 0 <= j < i ==> !Denies(policy, tags[j])
    {
      var normalized := NormalizeTag(tags[i]);
      if normalized in deniedSet {
        return Some(normalized);
      }
    }
    return None;
  }

  method EvaluateProviderPolicy(defaults: Defaults, policy: DataPolicy, refs: seq<Ref>)
    returns (reason: Reason, observed: Merged)
    ensures reason == Decide(defaults, policy, refs)
    ensures observed.level == LevelAfter(Classifications(defaults, refs))
  {
    hide NormalizeLevel, NormalizeTag, LevelAfter, Text.TrimSpace;
    observed := Merge(Classifications(defaults, refs));
    if Rank(observed.level) > Rank(NormalizeLevel(policy.maximum)) {
      return ClassificationExceeded, observed;
    }
    var denied := DeniedTag(observed.tags, policy);
    TagsDecide(defaults, policy, refs, observed.tags);
    if denied.Some? {
      return SensitivityTagDenied, observed;
    }
    var redacted := AllRefsRedacted(refs);
    if policy.requireRedaction && !redacted {
      return RedactionRequired, observed;
    }
    return Allowed, observed;
  }

  method AllRefsRedacted(refs: seq<Ref>) returns (redacted: bool)
    ensures redacted <==> Redacted(refs)
  {
    hide Text.TrimSpace;
    for i := 0 to |refs|
      invariant forall j :: 0 <= j < i ==> Text.TrimSpace(refs[j].redactionProfile) != ""
    {
      if Text.TrimSpace(refs[i].redactionProfile) == "" {
        return false;
      }
    }
    return true;
  }

  /** The merged tags are denied exactly when a tag of some reference is. */
  lemma TagsDecide(defaults: Defaults, policy: DataPolicy, refs: seq<Ref>, tags: seq<string>)
    requires forall tag :: tag in tags <==> Tagged(Classifications(defaults, refs), tag)
    ensures (exists i :: 0 <= i < |tags| && Denies(policy, tags[i])) <==> AnyDenied(defaults, policy, refs)
  {
    hide NormalizeTag, Denies;
    var items := Classifications(defaults, refs);
    if i :| 0 <= i < |tags| && Denies(policy, tags[i]) {
      assert tags[i] in tags;
      assert Tagged(items, tags[i]);
      var j :| 0 <= j < |items| && Carries(items[j], tags[i]);
      assert DeniesRef(policy, ClassificationOf(defaults, refs[j]));
    }
    if j :| 0 <= j < |refs| && DeniesRef(policy, ClassificationOf(defaults, refs[j])) {
      var c := items[j];
      var k :| 0 <= k < |c.tags| && NormalizeTag(c.tags[k]) != "" && Denies(policy, NormalizeTag(c.tags[k]));
      assert Carries(items[j], NormalizeTag(c.tags[k]));
      assert NormalizeTag(c.tags[k]) in tags;
    }
  }

  /** What a policy allows for a bundle it allows for every part of the bundle, in any order. */
  lemma AllowedForEverySubBundle(defaults: Defaults, policy: DataPolicy, refs: seq<Ref>, sub: seq<Ref>)
    requires Decide(defaults, policy, refs) == Allowed && forall r :: r in sub ==> r in refs
    ensures Decide(defaults, policy, sub) == Allowed
  {
    hide NormalizeLevel, LevelAfter, DeniesRef, ClassificationOf;
    var items, part := Classifications(defaults, refs), Classifications(defaults, sub);
    forall c | c in part
      ensures c in items
    {
      var i :| 0 <= i < |part| && part[i] == c;
      assert sub[i] in refs;
      var j :| 0 <= j < |refs| && refs[j] == sub[i];
      assert items[j] == c;
    }
    SubBundleRanksNoHigher(part, items);
    forall i | 0 <= i < |sub|
      ensures !DeniesRef(policy, ClassificationOf(defaults, sub[i]))
      ensures policy.requireRedaction ==> Text.TrimSpace(sub[i].redactionProfile) != ""
    {
      assert sub[i] in refs;
      var j :| 0 <= j < |refs| && refs[j] == sub[i];
    }
  }
}
