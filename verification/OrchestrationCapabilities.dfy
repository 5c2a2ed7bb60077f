/** The scheduling capabilities derived from one snapshot of the route table. */
module OrchestrationCapabilities {
  import opened Counting
  import opened IndependentReview
  import opened Wrappers

  /** One route row after the bounded-text, canonical-id and registry parsers have run. */
  datatype RouteRow = RouteRow(
    chat: bool,                       // the modality text is "chat"
    model: Option<string>,
    provider: Option<string>,
    upstream: Option<string>,
    selfTest: bool,                   // the echo model of the echo provider
    family: Option<string>,
    domain: Option<string>,
    registryFamily: Option<string>,   // the family the registry derives from `upstream`
    strongCandidate: bool             // candidate flag, both strengths and the premium tier agree
  )

  datatype Reason =
    | RoutesSnapshotUnavailable | RoutesSnapshotInvalid | NoChatModels | NoTrustedChatIdentity
    | NoSchedulableStrongReviewCandidates | SingleReviewNeedsIndependence
    | PostSummaryNeedsTwoReviewers | FourVendorNeedsFourReviewers

  datatype Capabilities = Capabilities(
    chatModelCount: nat,
    reviewCandidateCount: nat,
    independentIdentityCount: nat,
    singleReviewReady: bool,
    postSummaryFinalReviewReady: bool,
    fourVendorReviewReady: bool,
    reason: Option<Reason>
  )

  /** The route table as read: unreadable, malformed, or a list of rows. */
  datatype Snapshot = Unavailable | Malformed | Rows(rows: seq<RouteRow>)

  const MAX_ROUTES := 256

  function ClosedCapabilities(reason: Reason): Capabilities {
    Capabilities(0, 0, 0, false, false, false, Some(reason))
  }

  predicate Usable(row: RouteRow) {
    row.chat && row.model.Some? && row.provider.Some? && row.upstream.Some? && !row.selfTest
  }

  predicate Names(row: RouteRow, model: string) {
    Usable(row) && row.model == Some(model)
  }

  predicate Trusted(row: RouteRow) {
    Usable(row) && row.family.Some? && row.domain.Some? && row.family == row.registryFamily
  }

  function IdentityOf(row: RouteRow): Identity
    requires Trusted(row)
  {
    Identity(row.model.value, row.family.value, row.domain.value)
  }

  /** How many usable rows name `model`. */
  function Occurrences(rows: seq<RouteRow>, model: string): nat {
    if rows == [] then 0
    else (if Names(rows[0], model) then 1 else 0) + Occurrences(rows[1..], model)
  }

  /** The models named by exactly one usable row. */
  ghost function ChatModels(rows: seq<RouteRow>): set<string> {
    set row | row in rows && Usable(row) && Occurrences(rows, row.model.value) == 1 :: row.model.value
  }

  ghost function Identities(rows: seq<RouteRow>): set<Identity> {
    set row | row in rows && Trusted(row) && Occurrences(rows, row.model.value) == 1 :: IdentityOf(row)
  }

  ghost function Reviewers(rows: seq<RouteRow>): set<Identity> {
    set row | row in rows && Trusted(row) && row.strongCandidate
              && Occurrences(rows, row.model.value) == 1 :: IdentityOf(row)
  }

  ghost function ReasonFor(rows: seq<RouteRow>, c: Capabilities): Option<Reason> {
    if ChatModels(rows) == {} then Some(NoChatModels)
    else if Identities(rows) == {} then Some(NoTrustedChatIdentity)
    else if Reviewers(rows) == {} then Some(NoSchedulableStrongReviewCandidates)
    else if !c.singleReviewReady then Some(SingleReviewNeedsIndependence)
    else if !c.postSummaryFinalReviewReady then Some(PostSummaryNeedsTwoReviewers)
    else if !c.fourVendorReviewReady then Some(FourVendorNeedsFourReviewers)
    else None
  }

  /** What the reported capabilities mean for a well-formed table. */
  ghost predicate Reports(rows: seq<RouteRow>, c: Capabilities) {
    && c.chatModelCount == |ChatModels(rows)|
    && c.reviewCandidateCount == |Reviewers(rows)|
    && IsLargest(c.independentIdentityCount, Identities(rows))
    && (c.singleReviewReady <==> Schedulable(Identities(rows), Reviewers(rows), 1))
    && (c.postSummaryFinalReviewReady <==> Schedulable(Identities(rows), Reviewers(rows), 2))
    && (c.fourVendorReviewReady <==> Schedulable(Identities(rows), Reviewers(rows), 4))
    && c.reason == ReasonFor(rows, c)
  }

  // ---------------------------------------------------------------------------
  // Counting
  // ---------------------------------------------------------------------------

  lemma {:induction false} OccurrencesConcat(a: seq<RouteRow>, b: seq<RouteRow>, model: string)
    ensures Occurrences(a + b, model) == Occurrences(a, model) + Occurrences(b, model)
  {
    if a == [] {
      assert a + b == b;
    } else {
      assert (a + b)[1..] == a[1..] + b;
      OccurrencesConcat(a[1..], b, model);
    }
  }

  lemma OccurrencesAppend(rows: seq<RouteRow>, row: RouteRow, model: string)
    ensures Occurrences(rows + [row], model) == Occurrences(rows, model) + if Names(row, model) then 1 else 0
  {
    OccurrencesConcat(rows, [row], model);
  }

  lemma {:induction false} OccurrencesPositive(rows: seq<RouteRow>, model: string)
    ensures Occurrences(rows, model) > 0 <==> exists row :: row in rows && Names(row, model)
  {
    if rows != [] {
      OccurrencesPositive(rows[1..], model);
      assert rows == [rows[0]] + rows[1..];
    }
  }

  lemma OccurrencesRemove(b: seq<RouteRow>, j: nat, model: string)
    requires j < |b|
    ensures Occurrences(b, model) == Occurrences(b[..j] + b[j + 1..], model) + if Names(b[j], model) then 1 else 0
  {
    OccurrencesConcat(b[..j], b[j + 1..], model);
    OccurrencesConcat(b[..j], b[j..], model);
    assert b == b[..j] + b[j..];
    assert b[j..][1..] == b[j + 1..];
  }

  lemma {:induction false} OccurrencesPermuted(a: seq<RouteRow>, b: seq<RouteRow>, model: string)
    requires multiset(a) == multiset(b)
    ensures Occurrences(a, model) == Occurrences(b, model)
  {
    assert |multiset(a)| == |a| && |multiset(b)| == |b|;
    if a != [] {
      var j := FirstRemoved(a, b);
      OccurrencesPermuted(a[1..], b[..j] + b[j + 1..], model);
      OccurrencesRemove(b, j, model);
    }
  }

  lemma FirstRemoved(a: seq<RouteRow>, b: seq<RouteRow>) returns (j: nat)
    requires a != [] && multiset(a) == multiset(b)
    ensures j < |b| && b[j] == a[0] && multiset(a[1..]) == multiset(b[..j] + b[j + 1..])
  {
    assert a[0] in multiset(b);
    j :| 0 <= j < |b| && b[j] == a[0];
    assert a == [a[0]] + a[1..];
    var rest := b[..j] + b[j + 1..];
    assert b == b[..j] + [b[j]] + b[j + 1..];
    assert multiset(b) == multiset(rest) + multiset{b[j]};
    assert multiset(a) == multiset(a[1..]) + multiset{a[0]};
    assert multiset(rest) == multiset(b) - multiset{a[0]};
    assert multiset(a[1..]) == multiset(a) - multiset{a[0]};
  }

  // ---------------------------------------------------------------------------
  // The snapshot loop
  // ---------------------------------------------------------------------------

  /** The dictionaries after the rows read so far. */
  ghost predicate Tallied(rows: seq<RouteRow>, chatModels: set<string>, conflicted: set<string>,
                          identityByModel: map<string, Identity>, reviewerByModel: map<string, Identity>)
  {
    && (forall m :: m in chatModels <==> Occurrences(rows, m) == 1)
    && (forall m :: m in conflicted <==> Occurrences(rows, m) >= 2)
    && identityByModel.Keys <= chatModels && reviewerByModel.Keys <= chatModels
    && (forall row | row in rows && Usable(row) && row.model.value in chatModels ::
          && (row.model.value in identityByModel <==> Trusted(row))
          && (Trusted(row) ==> identityByModel[row.model.value] == IdentityOf(row))
          && (row.model.value in reviewerByModel <==> Trusted(row) && row.strongCandidate)
          && (Trusted(row) && row.strongCandidate ==> reviewerByModel[row.model.value] == IdentityOf(row)))
  }

  lemma TalliedSkip(rows: seq<RouteRow>, row: RouteRow, chatModels: set<string>, conflicted: set<string>,
                    identityByModel: map<string, Identity>, reviewerByModel: map<string, Identity>)
    requires Tallied(rows, chatModels, conflicted, identityByModel, reviewerByModel)
    requires !Usable(row) || row.model.value in conflicted
    ensures Tallied(rows + [row], chatModels, conflicted, identityByModel, reviewerByModel)
  {
    forall m ensures Occurrences(rows + [row], m) == Occurrences(rows, m) + if Names(row, m) then 1 else 0 {
      OccurrencesAppend(rows, row, m);
    }
  }

  lemma TalliedConflict(rows: seq<RouteRow>, row: RouteRow, chatModels: set<string>, conflicted: set<string>,
                        identityByModel: map<string, Identity>, reviewerByModel: map<string, Identity>)
    requires Tallied(rows, chatModels, conflicted, identityByModel, reviewerByModel)
    requires Usable(row) && row.model.value in chatModels
    ensures Tallied(rows + [row], chatModels - {row.model.value}, conflicted + {row.model.value},
                    identityByModel - {row.model.value}, reviewerByModel - {row.model.value})
  {
    forall m ensures Occurrences(rows + [row], m) == Occurrences(rows, m) + if Names(row, m) then 1 else 0 {
      OccurrencesAppend(rows, row, m);
    }
  }

  lemma TalliedNew(rows: seq<RouteRow>, row: RouteRow, chatModels: set<string>, conflicted: set<string>,
                   identityByModel: map<string, Identity>, reviewerByModel: map<string, Identity>)
    requires Tallied(rows, chatModels, conflicted, identityByModel, reviewerByModel)
    requires Usable(row) && row.model.value !in chatModels && row.model.value !in conflicted
    ensures Tallied(rows + [row], chatModels + {row.model.value}, conflicted,
                    if Trusted(row) then identityByModel[row.model.value := IdentityOf(row)] else identityByModel,
                    if Trusted(row) && row.strongCandidate
                    then reviewerByModel[row.model.value := IdentityOf(row)] else reviewerByModel)
  {
    var model := row.model.value;
    forall m ensures Occurrences(rows + [row], m) == Occurrences(rows, m) + if Names(row, m) then 1 else 0 {
      OccurrencesAppend(rows, row, m);
    }
    OccurrencesPositive(rows, model);
    assert forall other | other in rows && Usable(other) :: Names(other, other.model.value);
  }

  lemma TalliedMeaning(rows: seq<RouteRow>, chatModels: set<string>, conflicted: set<string>,
                       identityByModel: map<string, Identity>, reviewerByModel: map<string, Identity>)
    requires Tallied(rows, chatModels, conflicted, identityByModel, reviewerByModel)
    ensures chatModels == ChatModels(rows)
    ensures identityByModel.Values == Identities(rows)
    ensures reviewerByModel.Values == Reviewers(rows)
    ensures |reviewerByModel| == |Reviewers(rows)|
  {
    forall m | m in chatModels
      ensures exists row :: row in rows && Names(row, m)
    {
      OccurrencesPositive(rows, m);
    }
    forall m | m in identityByModel ensures identityByModel[m] in Identities(rows) {
      var row :| row in rows && Names(row, m);
    }
    forall m | m in reviewerByModel ensures reviewerByModel[m] in Reviewers(rows) && reviewerByModel[m].model == m {
      var row :| row in rows && Names(row, m);
    }
    forall id | id in Identities(rows) ensures id in identityByModel.Values {
      assert identityByModel[id.model] == id;
    }
    forall id | id in Reviewers(rows) ensures id in reviewerByModel.Values {
      assert reviewerByModel[id.model] == id;
    }
    KeyedCounts(reviewerByModel);
  }

  lemma {:induction false} KeyedCounts(m: map<string, Identity>)
    requires forall k | k in m :: m[k].model == k
    ensures |m.Values| == |m|
    decreases |m|
  {
    if m != map[] {
      var k :| k in m;
      var rest := m - {k};
      assert m.Keys == rest.Keys + {k} && |m.Keys| == |m| && |rest.Keys| == |rest|;
      KeyedCounts(rest);
      assert m.Values == rest.Values + {m[k]} by {
        forall v | v in m.Values ensures v in rest.Values + {m[k]} {
          var x :| x in m && m[x] == v;
          if x != k { assert rest[x] == v; }
        }
        forall v | v in rest.Values ensures v in m.Values {
          var x :| x in rest && rest[x] == v;
          assert m[x] == v;
        }
      }
      assert m[k] !in rest.Values;
    }
  }

  method TallyRows(rows: seq<RouteRow>)
    returns (chatModels: set<string>, identityByModel: map<string, Identity>, reviewerByModel: map<string, Identity>)
    ensures chatModels == ChatModels(rows)
    ensures identityByModel.Values == Identities(rows)
    ensures reviewerByModel.Values == Reviewers(rows) && |reviewerByModel| == |Reviewers(rows)|
  {
    var conflicted: set<string> := {};
    chatModels, identityByModel, reviewerByModel := {}, map[], map[];
    for i := 0 to |rows|
      invariant Tallied(rows[..i], chatModels, conflicted, identityByModel, reviewerByModel)
    {
      var row := rows[i];
      assert rows[..i + 1] == rows[..i] + [row];
      if !Usable(row) || row.model.value in conflicted {
        TalliedSkip(rows[..i], row, chatModels, conflicted, identityByModel, reviewerByModel);
        continue;
      }
      var model := row.model.value;
      if model in chatModels {
        TalliedConflict(rows[..i], row, chatModels, conflicted, identityByModel, reviewerByModel);
        chatModels := chatModels - {model};
        identityByModel := identityByModel - {model};
        reviewerByModel := reviewerByModel - {model};
        conflicted := conflicted + {model};
        continue;
      }
      TalliedNew(rows[..i], row, chatModels, conflicted, identityByModel, reviewerByModel);
      chatModels := chatModels + {model};
      if Trusted(row) {
        var identity := IdentityOf(row);
        identityByModel := identityByModel[model := identity];
        if row.strongCandidate {
          reviewerByModel := reviewerByModel[model := identity];
        }
      }
    }
    assert rows[..|rows|] == rows;
    TalliedMeaning(rows, chatModels, conflicted, identityByModel, reviewerByModel);
  }

  /** The values of a dictionary as a list, in some order. */
  method Listed(m: map<string, Identity>) returns (values: seq<Identity>)
    ensures Elements(values) == m.Values
  {
    values := [];
    var keys := m.Keys;
    while keys != {}
      invariant keys <= m.Keys
      invariant forall id :: id in values <==> exists k :: k in m && k !in keys && m[k] == id
      decreases |keys|
    {
      var k :| k in keys;
      keys := keys - {k};
      ghost var earlier := values;
      values := values + [m[k]];
      forall id ensures id in values <==> exists j :: j in m && j !in keys && m[j] == id {
        if id == m[k] {
          assert k in m && k !in keys && m[k] == id;
        } else {
          assert id in values <==> id in earlier;
        }
      }
    }
  }

  method DeriveCapabilities(snapshot: Snapshot) returns (c: Capabilities)
    ensures snapshot.Unavailable? ==> c == ClosedCapabilities(RoutesSnapshotUnavailable)
    ensures snapshot.Malformed? || (snapshot.Rows? && |snapshot.rows| > MAX_ROUTES)
            ==> c == ClosedCapabilities(RoutesSnapshotInvalid)
    ensures snapshot.Rows? && |snapshot.rows| <= MAX_ROUTES ==> Reports(snapshot.rows, c)
  {
    if snapshot.Unavailable? {
      return ClosedCapabilities(RoutesSnapshotUnavailable);
    }
    if snapshot.Malformed? || |snapshot.rows| > MAX_ROUTES {
      return ClosedCapabilities(RoutesSnapshotInvalid);
    }
    var chatModels, identityByModel, reviewerByModel := TallyRows(snapshot.rows);
    var identities := Listed(identityByModel);
    var reviewers := Listed(reviewerByModel);
    assert identities == [] <==> Elements(identities) == {} by {
      if identities != [] { assert identities[0] in Elements(identities); }
    }
    assert reviewers == [] <==> Elements(reviewers) == {} by {
      if reviewers != [] { assert reviewers[0] in Elements(reviewers); }
    }
    var independent := MaximumIndependentIdentityCount(identities);
    var one := CanScheduleIndependentReviews(identities, reviewers, 1);
    var two := CanScheduleIndependentReviews(identities, reviewers, 2);
    var four := CanScheduleIndependentReviews(identities, reviewers, 4);
    var reason :=
      if chatModels == {} then Some(NoChatModels)
      else if identities == [] then Some(NoTrustedChatIdentity)
      else if reviewers == [] then Some(NoSchedulableStrongReviewCandidates)
      else if !one then Some(SingleReviewNeedsIndependence)
      else if !two then Some(PostSummaryNeedsTwoReviewers)
      else if !four then Some(FourVendorNeedsFourReviewers)
      else None;
    c := Capabilities(|chatModels|, |reviewerByModel|, independent, one, two, four, reason);
  }

  // ---------------------------------------------------------------------------
  // What the report means
  // ---------------------------------------------------------------------------

  /** Four-vendor readiness implies two-reviewer readiness implies single-review readiness. */
  lemma ReadinessNested(rows: seq<RouteRow>, c: Capabilities)
    requires Reports(rows, c)
    ensures c.fourVendorReviewReady ==> c.postSummaryFinalReviewReady
    ensures c.postSummaryFinalReviewReady ==> c.singleReviewReady
  {
    if c.fourVendorReviewReady {
      SchedulableMonotone(Identities(rows), Reviewers(rows), 2, 4);
    }
    if c.postSummaryFinalReviewReady {
      SchedulableMonotone(Identities(rows), Reviewers(rows), 1, 2);
    }
  }

  /** No reason is given exactly when every review kind is ready. */
  lemma ReasonAbsentIffAllReady(rows: seq<RouteRow>, c: Capabilities)
    requires Reports(rows, c)
    ensures c.reason.None? <==> c.fourVendorReviewReady
  {
    ReadinessNested(rows, c);
    if c.fourVendorReviewReady {
      var initiator, panel :| initiator in Identities(rows) && Panel(initiator, panel, Reviewers(rows), 4);
      assert panel != {};
      var row :| row in rows && Trusted(row) && Occurrences(rows, row.model.value) == 1 && IdentityOf(row) == initiator;
      assert row.model.value in ChatModels(rows);
    }
  }

  /** Each reason says how far the reported figures go, and the first that stops short is given. */
  lemma ReasonMeans(rows: seq<RouteRow>, c: Capabilities)
    requires Reports(rows, c)
    ensures c.reason == Some(NoChatModels) <==> c.chatModelCount == 0
    ensures c.reason == Some(NoTrustedChatIdentity) <==> c.chatModelCount > 0 && c.independentIdentityCount == 0
    ensures c.reason == Some(NoSchedulableStrongReviewCandidates) <==>
            c.independentIdentityCount > 0 && c.reviewCandidateCount == 0
    ensures c.reason == Some(SingleReviewNeedsIndependence) <==> c.reviewCandidateCount > 0 && !c.singleReviewReady
    ensures c.reason == Some(PostSummaryNeedsTwoReviewers) <==> c.singleReviewReady && !c.postSummaryFinalReviewReady
    ensures c.reason == Some(FourVendorNeedsFourReviewers) <==> c.postSummaryFinalReviewReady && !c.fourVendorReviewReady
  {
    hide Occurrences, Schedulable;
    ReadinessNested(rows, c);
    NestedTables(rows);
    SomeIdentityCounts(c.independentIdentityCount, Identities(rows));
    if c.singleReviewReady { ScheduleNeedsReviewer(Identities(rows), Reviewers(rows), 1); }
    hide ChatModels, Identities, Reviewers, IsLargest;
  }

  /** Reviewers are identities, and identities are of chat models. */
  lemma NestedTables(rows: seq<RouteRow>)
    ensures Reviewers(rows) <= Identities(rows)
    ensures Identities(rows) != {} ==> ChatModels(rows) != {}
  {
    hide Occurrences;
    if Identities(rows) != {} {
      var row :| row in rows && Trusted(row) && Occurrences(rows, row.model.value) == 1;
      assert row.model.value in ChatModels(rows);
    }
  }

  lemma SomeIdentityCounts(n: nat, ids: set<Identity>)
    requires IsLargest(n, ids)
    ensures n == 0 <==> ids == {}
  {
    if ids != {} {
      var id :| id in ids;
      assert {id} <= ids && Independent({id}) && |{id}| == 1;
    } else {
      var s: set<Identity> :| s <= ids && Independent(s) && |s| == n;
      assert s == {};
    }
  }

  lemma ScheduleNeedsReviewer(identities: set<Identity>, reviewers: set<Identity>, k: nat)
    requires Schedulable(identities, reviewers, k) && k > 0
    ensures reviewers != {}
  {
    var initiator, panel :| initiator in identities && Panel(initiator, panel, reviewers, k);
    assert panel != {};
  }

  /** A row that is not for chat, lacks a name, or is the echo model's changes nothing. */
  lemma RowIgnored(rows: seq<RouteRow>, row: RouteRow)
    requires !row.chat || row.model.None? || row.provider.None? || row.upstream.None? || row.selfTest
    ensures ChatModels(rows + [row]) == ChatModels(rows)
    ensures Identities(rows + [row]) == Identities(rows) && Reviewers(rows + [row]) == Reviewers(rows)
  {
    var more := rows + [row];
    forall m ensures Occurrences(more, m) == Occurrences(rows, m) {
      OccurrencesAppend(rows, row, m);
    }
  }

  /** Any other row for a model not yet named lists the model. It lists an identity if the row gives a family and a
      domain and the registry derives that very family, and a reviewer if it is also a strong candidate. */
  lemma RowListed(rows: seq<RouteRow>, row: RouteRow)
    requires row.chat && row.model.Some? && row.provider.Some? && row.upstream.Some? && !row.selfTest
    requires Occurrences(rows, row.model.value) == 0
    ensures ChatModels(rows + [row]) == ChatModels(rows) + {row.model.value}
    ensures var listed := if row.family.Some? && row.domain.Some? && row.registryFamily == row.family
                          then {Identity(row.model.value, row.family.value, row.domain.value)} else {};
            && Identities(rows + [row]) == Identities(rows) + listed
            && Reviewers(rows + [row]) == Reviewers(rows) + if row.strongCandidate then listed else {}
  {
    hide Occurrences;
    var more := rows + [row];
    NewModelCounts(rows, row);
    assert forall other :: other in more <==> other in rows || other == row;
    assert ChatModels(more) == ChatModels(rows) + {row.model.value} by { assert row in more; }
    if Trusted(row) {
      assert IdentityOf(row) in Identities(more) by { assert row in more; }
      assert Identities(more) == Identities(rows) + {IdentityOf(row)};
      if row.strongCandidate {
        assert IdentityOf(row) in Reviewers(more) by { assert row in more; }
        assert Reviewers(more) == Reviewers(rows) + {IdentityOf(row)};
      } else {
        assert Reviewers(more) == Reviewers(rows);
      }
    } else {
      assert Identities(more) == Identities(rows) && Reviewers(more) == Reviewers(rows);
    }
  }

  lemma NewModelCounts(rows: seq<RouteRow>, row: RouteRow)
    requires Usable(row) && Occurrences(rows, row.model.value) == 0
    ensures Occurrences(rows + [row], row.model.value) == 1
    ensures forall other | other in rows && Usable(other) ::
              && other.model != row.model
              && Occurrences(rows + [row], other.model.value) == Occurrences(rows, other.model.value)
  {
    hide Occurrences;
    OccurrencesAppend(rows, row, row.model.value);
    OccurrencesPositive(rows, row.model.value);
    forall other | other in rows && Usable(other)
      ensures other.model != row.model
      ensures Occurrences(rows + [row], other.model.value) == Occurrences(rows, other.model.value)
    {
      assert Names(other, other.model.value);
      OccurrencesAppend(rows, row, other.model.value);
    }
  }

  /** The report does not depend on the order of the route rows. */
  lemma PermutationInvariant(a: seq<RouteRow>, b: seq<RouteRow>, c: Capabilities, d: Capabilities)
    requires multiset(a) == multiset(b)
    requires Reports(a, c) && Reports(b, d)
    ensures c == d
  {
    forall m ensures Occurrences(a, m) == Occurrences(b, m) {
      OccurrencesPermuted(a, b, m);
    }
    forall row ensures row in a <==> row in b {
      assert row in a <==> row in multiset(a);
      assert row in b <==> row in multiset(b);
    }
    assert ChatModels(a) == ChatModels(b);
    assert Identities(a) == Identities(b);
    assert Reviewers(a) == Reviewers(b);
    LargestUnique(c.independentIdentityCount, d.independentIdentityCount, Identities(a));
  }

  /** A further row for a listed model only takes that model away. */
  lemma DuplicateRevokes(rows: seq<RouteRow>, row: RouteRow)
    requires Usable(row) && Occurrences(rows, row.model.value) >= 1
    ensures ChatModels(rows + [row]) == ChatModels(rows) - {row.model.value}
    ensures Identities(rows + [row]) == set id | id in Identities(rows) && id.model != row.model.value
    ensures Reviewers(rows + [row]) == set id | id in Reviewers(rows) && id.model != row.model.value
  {
    var more := rows + [row];
    forall m ensures Occurrences(more, m) == Occurrences(rows, m) + if Names(row, m) then 1 else 0 {
      OccurrencesAppend(rows, row, m);
    }
  }

  lemma SchedulableInclusion(a: set<Identity>, b: set<Identity>, c: set<Identity>, d: set<Identity>, k: nat)
    requires a <= b && c <= d && Schedulable(a, c, k)
    ensures Schedulable(b, d, k)
  {
    var initiator, panel :| initiator in a && Panel(initiator, panel, c, k);
    assert Panel(initiator, panel, d, k);
  }

  /** A duplicated model grants nothing: no count grows and no readiness appears. */
  lemma DuplicateGrantsNothing(rows: seq<RouteRow>, row: RouteRow, c: Capabilities, d: Capabilities)
    requires Usable(row) && Occurrences(rows, row.model.value) >= 1
    requires Reports(rows, c) && Reports(rows + [row], d)
    ensures d.chatModelCount <= c.chatModelCount
    ensures d.reviewCandidateCount <= c.reviewCandidateCount
    ensures d.independentIdentityCount <= c.independentIdentityCount
    ensures d.singleReviewReady ==> c.singleReviewReady
    ensures d.postSummaryFinalReviewReady ==> c.postSummaryFinalReviewReady
    ensures d.fourVendorReviewReady ==> c.fourVendorReviewReady
  {
    var more := rows + [row];
    DuplicateRevokes(rows, row);
    SubsetCounts(ChatModels(more), ChatModels(rows));
    SubsetCounts(Reviewers(more), Reviewers(rows));
    var s: set<Identity> :| s <= Identities(more) && Independent(s) && |s| == d.independentIdentityCount;
    assert s <= Identities(rows);
    if d.singleReviewReady {
      SchedulableInclusion(Identities(more), Identities(rows), Reviewers(more), Reviewers(rows), 1);
    }
    if d.postSummaryFinalReviewReady {
      SchedulableInclusion(Identities(more), Identities(rows), Reviewers(more), Reviewers(rows), 2);
    }
    if d.fourVendorReviewReady {
      SchedulableInclusion(Identities(more), Identities(rows), Reviewers(more), Reviewers(rows), 4);
    }
  }
}
