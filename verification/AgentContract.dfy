/** The closed contract of an agent turn's terminal result: validation, and sealing of legacy results. */
module AgentContract {
  import opened ChannelResult
  import opened Wrappers

  /** The foreign parts: whether a receipt's attestation holds for a reply, and the digest of a set of claims. */
  datatype Foreign = Foreign(verify: (Fields, string) -> bool, digest: set<string> -> string)

  const OUTCOMES: set<string> := {
    "completed", "completed_unverified", "partial", "failed", "blocked", "accepted_async", "rejected_capacity"
  }
  const STOPPED_REASONS: set<string> := {
    "wall_cap", "stall", "max_steps", "capability_violation", "empty_response", "error"
  }
  const CLAIMS: set<string> := {"claimed_model", "requested_model", "claimed_actual_model"}
  const ATTESTATION_FIELD := "_nachuan_route_attestation"
  const EMPTY_REPLY := "模型未返回可显示内容，本轮未完成；请重试或更换模型。"
  const MAX_REPLY_BYTES := 1024 * 1024
  const MAX_ID_BYTES := 512

  // ---------------------------------------------------------------------------
  // Validation
  // ---------------------------------------------------------------------------

  predicate BoundedId(value: Json) {
    && value.Str? && value.text != "" && !IsSpace(value.text[0]) && !IsSpace(value.text[|value.text| - 1])
    && Utf8Length(value.text) <= MAX_ID_BYTES
    && forall c | c in value.text :: c as int >= 32 && c as int != 127
  }

  predicate Flagged(r: Fields, field: string) {
    Get(r, field) == Bool(true)
  }

  /** A result that may be persisted, replayed or returned. */
  predicate Validates(r: Fields) {
    var reply := Get(r, "reply");
    var outcome := Get(r, "outcome");
    var blocked := Get(r, "blocked");
    var stopped := Get(r, "stopped_reason");
    && reply.Str? && !Blank(reply.text) && BoundedId(Get(r, "model"))
    && outcome.Str? && outcome.text in OUTCOMES && blocked.Bool?
    && Utf8Length(reply.text) <= MAX_REPLY_BYTES
    && (forall f | f in {"reviewed", "verified", "machine_verified"} :: Get(r, f).Null? || Get(r, f).Bool?)
    && (!stopped.Null? ==>
          stopped.Str? && stopped.text in STOPPED_REASONS && outcome.text in {"partial", "failed", "blocked"})
    && blocked.flag == (outcome.text in {"blocked", "rejected_capacity"})
    && (if outcome.text == "completed" then Flagged(r, "verified") && Flagged(r, "machine_verified")
        else !Flagged(r, "verified") && !Flagged(r, "machine_verified"))
    && (outcome.text == "accepted_async" ==>
          exists f | f in {"video_task", "job_id", "task_id"} :: BoundedId(Get(r, f)))
  }

  // ---------------------------------------------------------------------------
  // Receipts
  // ---------------------------------------------------------------------------

  /** What a receipt says of the author: it is contradictory, it proves nothing, or it names a model. */
  datatype Verdict = Contradicts | Silent | Names(model: string)

  predicate IsOne(value: Json) {
    value == Int(1) || value == Bool(true) || value == Float(1.0)
  }

  function ReceiptVerdict(f: Foreign, value: Json, reply: string): Verdict {
    if !value.Obj? then Silent
    else
      var receipt := value.fields;
      if !f.verify(receipt, reply) then if ATTESTATION_FIELD in receipt then Contradicts else Silent
      else if !IsOne(Get(receipt, "route_receipt_version")) then Silent
      else
        var actual := Get(receipt, "actual_model");
        if !BoundedId(actual) then Silent
        else if !Get(receipt, "model").Null? && Get(receipt, "model") != actual then Contradicts
        else if !Get(receipt, "model_identity_error").Null? then Silent
        else if exists g | g in {"provider", "upstream_model", "observed_model", "model_family"} :: !BoundedId(Get(receipt, g))
        then Silent
        else Names(actual.text)
  }

  /** The receipts a result carries. */
  function Receipts(r: Fields): seq<Json> {
    var route := Get(r, "_route");
    (if "final_route_receipt" in r then [r["final_route_receipt"]] else []) +
    (if !route.Obj? then []
     else if "final_route_receipt" in route.fields then [route.fields["final_route_receipt"]]
     else if !Get(route.fields, "route_receipt_version").Null? then [route]
     else [])
  }

  /** The text receipts are checked against. A reply that is no text is refused whatever they say. */
  function ReplyText(r: Fields): string {
    if Get(r, "reply").Str? then Get(r, "reply").text else ""
  }

  /** No receipt contradicts itself or another, and the named model, if any, is this one. */
  ghost predicate Agree(f: Foreign, receipts: seq<Json>, reply: string, trusted: Option<string>) {
    && (forall x | x in receipts :: var v := ReceiptVerdict(f, x, reply);
          !v.Contradicts? && (v.Names? ==> trusted == Some(v.model)))
    && (trusted.Some? ==> exists x | x in receipts :: ReceiptVerdict(f, x, reply) == Names(trusted.value))
  }

  /** The model all verified receipts name; None is the error of contradicting ones. */
  function Trusted(f: Foreign, receipts: seq<Json>, reply: string): Option<Option<string>> {
    if receipts == [] then Some(None)
    else
      match Trusted(f, receipts[..|receipts| - 1], reply)
      case None => None
      case Some(trusted) =>
        match ReceiptVerdict(f, receipts[|receipts| - 1], reply)
        case Contradicts => None
        case Silent => Some(trusted)
        case Names(model) => if trusted.Some? && model != trusted.value then None else Some(Some(model))
  }

  lemma {:induction false} TrustedAgrees(f: Foreign, receipts: seq<Json>, reply: string, trusted: Option<string>)
    ensures Trusted(f, receipts, reply) == Some(trusted) <==> Agree(f, receipts, reply, trusted)
  {
    if receipts != [] {
      var n := |receipts| - 1;
      assert receipts == receipts[..n] + [receipts[n]];
      TrustedAgrees(f, receipts[..n], reply, trusted);
      TrustedAgrees(f, receipts[..n], reply, None);
    }
  }

  // ---------------------------------------------------------------------------
  // Sealing
  // ---------------------------------------------------------------------------

  /** The claims worth a digest: neither empty nor the engine's own name. */
  function Clean(values: set<Json>): set<string> {
    set v | v in values && v.Str? && v.text != "" && v.text != LOCAL_MODEL :: v.text
  }

  function ClaimedIn(r: Fields): set<Json> {
    set c | c in CLAIMS :: Get(r, c)
  }

  /** The result with its unverified claims replaced by their digest. */
  function WithoutClaims(f: Foreign, r: Fields, more: set<Json>): Fields {
    var clean := Clean(more + ClaimedIn(r));
    if clean == {} then r - CLAIMS else (r - CLAIMS)["unverified_model_sha256" := Str(f.digest(clean))]
  }

  /** The result with its model bound to the verified author, or downgraded. */
  function Seal(f: Foreign, r: Fields): Option<Fields> {
    var model := Get(r, "model");
    match Trusted(f, Receipts(r), ReplyText(r))
    case None => None
    case Some(trusted) =>
      if model == Str(LOCAL_MODEL) then
        if trusted.Some? && trusted.value != LOCAL_MODEL then None
        else Some(WithoutClaims(f, r, {Get(r, "actual_model")})["actual_model" := Null])
      else if trusted.Some? then
        if model != Str(trusted.value) || ("actual_model" in r && r["actual_model"] != model) then None
        else Some(r["actual_model" := model])
      else
        Some(WithoutClaims(f, r, {model, Get(r, "actual_model")})["actual_model" := Null]["model" := Str(LOCAL_MODEL)])
  }

  predicate Truthy(value: Json) {
    match value
    case Null => false
    case Bool(flag) => flag
    case Int(n) => n != 0
    case Float(x) => x != 0.0
    case Str(text) => text != ""
    case List(items) => items != []
    case Obj(fields) => fields != map[]
  }

  predicate Progress(r: Fields) {
    || (Get(r, "steps").Int? && Get(r, "steps").value > 0)
    || Truthy(Get(r, "tool_log")) || Truthy(Get(r, "file_changes"))
    || Truthy(Get(r, "media")) || Truthy(Get(r, "pending_videos"))
  }

  /** The result with an outcome, supplied fail-closed where there is none. */
  function WithOutcome(f: Foreign, r: Fields): Option<Fields> {
    var unfinished := Str(if Progress(r) then "partial" else "failed");
    var reply := Get(r, "reply");
    if "outcome" in r then Some(r)
    else if Truthy(Get(r, "stopped_reason")) then Some(r["outcome" := unfinished])
    else if !reply.Str? then None
    else if Blank(reply.text) then
      var recorded := WithoutClaims(f, r, {Get(r, "model")});
      Some(Default(recorded, "actual_model", Null)["reply" := Str(EMPTY_REPLY)]["model" := Str(LOCAL_MODEL)]
           ["stopped_reason" := Str("empty_response")]["outcome" := unfinished])
    else Some(r["outcome" := Str("completed_unverified")])
  }

  function Default(r: Fields, key: string, value: Json): Fields {
    if key in r then r else r[key := value]
  }

  function Defaulted(r: Fields): Fields {
    var outcome := Get(r, "outcome");
    var blocked := outcome == Str("blocked") || outcome == Str("rejected_capacity");
    Default(Default(Default(Default(r, "reviewed", Bool(false)), "verified", Bool(false)),
                    "machine_verified", Bool(false)), "blocked", Bool(blocked))
  }

  /** Sealing a legacy result into the contract; None is the contract error. */
  function Normalize(f: Foreign, value: Json): Option<Fields> {
    if !value.Obj? then None
    else
      match WithOutcome(f, value.fields)
      case None => None
      case Some(r) =>
        match Seal(f, Defaulted(r))
        case None => None
        case Some(sealed) => if Validates(sealed) then Some(sealed) else None
  }

  // ---------------------------------------------------------------------------
  // In place, as the source does it
  // ---------------------------------------------------------------------------

  class Document {
    var fields: Fields

    constructor (fields: Fields)
      ensures this.fields == fields
    {
      this.fields := fields;
    }

    method SetDefault(key: string, value: Json)
      modifies this
      ensures fields == Default(old(fields), key, value)
    {
      if key !in fields { fields := fields[key := value]; }
    }

    method RecordUnverifiedModelClaims(f: Foreign, more: set<Json>)
      modifies this
      ensures fields == WithoutClaims(f, old(fields), more)
    {
      var values := more;
      var keys := ["claimed_model", "requested_model", "claimed_actual_model"];
      ghost var popped: set<string> := {};
      for i := 0 to 3
        invariant popped == (set j | 0 <= j < i :: keys[j])
        invariant values == more + (set c | c in popped :: Get(old(fields), c))
        invariant fields == old(fields) - popped
      {
        assert keys[i] !in popped by { assert forall j | 0 <= j < i :: keys[j] != keys[i]; }
        values := values + {Get(fields, keys[i])};
        fields := fields - {keys[i]};
        popped := popped + {keys[i]};
      }
      assert popped == {keys[0], keys[1], keys[2]} == CLAIMS;
      assert values == more + ClaimedIn(old(fields));
      var clean := Clean(values);
      if clean != {} { fields := fields["unverified_model_sha256" := Str(f.digest(clean))]; }
    }

    method SupplyOutcome(f: Foreign) returns (ok: bool)
      modifies this
      ensures ok == WithOutcome(f, old(fields)).Some?
      ensures ok ==> fields == WithOutcome(f, old(fields)).value
    {
      hide WithoutClaims, Progress, Truthy;
      if "outcome" in fields { return true; }
      var unfinished := Str(if Progress(fields) then "partial" else "failed");
      var reply := Get(fields, "reply");
      if Truthy(Get(fields, "stopped_reason")) {
        fields := fields["outcome" := unfinished];
      } else if !reply.Str? || Blank(reply.text) {
        if !reply.Str? { return false; }
        RecordUnverifiedModelClaims(f, {Get(fields, "model")});
        SetDefault("actual_model", Null);
        fields := fields["reply" := Str(EMPTY_REPLY)];
        fields := fields["model" := Str(LOCAL_MODEL)];
        fields := fields["stopped_reason" := Str("empty_response")];
        fields := fields["outcome" := unfinished];
      } else {
        fields := fields["outcome" := Str("completed_unverified")];
      }
      return true;
    }

    method SupplyDefaults()
      modifies this
      ensures fields == Defaulted(old(fields))
    {
      hide Default;
      var outcome := Get(fields, "outcome");
      SetDefault("reviewed", Bool(false));
      SetDefault("verified", Bool(false));
      SetDefault("machine_verified", Bool(false));
      SetDefault("blocked", Bool(outcome == Str("blocked") || outcome == Str("rejected_capacity")));
    }

    method TrustedFinalModel(f: Foreign) returns (trusted: Option<Option<string>>)
      ensures trusted == Trusted(f, Receipts(fields), ReplyText(fields))
    {
      var receipts := Receipts(fields);
      var found: Option<string> := None;
      for i := 0 to |receipts|
        invariant Trusted(f, receipts[..i], ReplyText(fields)) == Some(found)
      {
        assert receipts[..i + 1][..i] == receipts[..i];
        var verdict := ReceiptVerdict(f, receipts[i], ReplyText(fields));
        if verdict.Contradicts? || (verdict.Names? && found.Some? && verdict.model != found.value) {
          TrustedStays(f, receipts, i + 1, ReplyText(fields));
          return None;
        }
        if verdict.Names? { found := Some(verdict.model); }
      }
      assert receipts[..|receipts|] == receipts;
      return Some(found);
    }

    method SealModelAttribution(f: Foreign) returns (ok: bool)
      modifies this
      ensures ok == Seal(f, old(fields)).Some?
      ensures ok ==> fields == Seal(f, old(fields)).value
    {
      var model := Get(fields, "model");
      var trusted := TrustedFinalModel(f);
      if trusted.None? { return false; }
      if model == Str(LOCAL_MODEL) {
        if trusted.value.Some? && trusted.value.value != LOCAL_MODEL { return false; }
        RecordUnverifiedModelClaims(f, {Get(fields, "actual_model")});
        fields := fields["actual_model" := Null];
        return true;
      }
      if trusted.value.Some? {
        if model != Str(trusted.value.value) { return false; }
        if "actual_model" in fields && fields["actual_model"] != model { return false; }
        SetDefault("actual_model", model);
        return true;
      }
      RecordUnverifiedModelClaims(f, {model, Get(fields, "actual_model")});
      fields := fields["actual_model" := Null];
      fields := fields["model" := Str(LOCAL_MODEL)];
      return true;
    }
  }

  lemma {:induction false} TrustedStays(f: Foreign, receipts: seq<Json>, i: nat, reply: string)
    requires i <= |receipts| && Trusted(f, receipts[..i], reply).None?
    ensures Trusted(f, receipts, reply).None?
  {
    if i == |receipts| {
      assert receipts[..i] == receipts;
    } else {
      assert receipts[..|receipts| - 1][..i] == receipts[..i];
      TrustedStays(f, receipts[..|receipts| - 1], i, reply);
    }
  }

  method NormalizeLegacyAgentResult(f: Foreign, value: Json) returns (sealed: Option<Fields>)
    ensures sealed == Normalize(f, value)
  {
    hide WithOutcome, Defaulted, Seal, Validates;
    if !value.Obj? { return None; }
    var doc := new Document(value.fields);
    var ok := doc.SupplyOutcome(f);
    if !ok { return None; }
    doc.SupplyDefaults();
    ok := doc.SealModelAttribution(f);
    if !ok || !Validates(doc.fields) { return None; }
    return Some(doc.fields);
  }

  // ---------------------------------------------------------------------------
  // What sealing guarantees
  // ---------------------------------------------------------------------------

  /** The document's model is the author its receipts agree on, or the local engine where they name none, and
      its actual model says the same. */
  ghost predicate Attributed(f: Foreign, r: Fields) {
    var model := Get(r, "model");
    && "actual_model" in r
    && (if model == Str(LOCAL_MODEL) then
          r["actual_model"] == Null && (Agree(f, Receipts(r), ReplyText(r), None) || Agree(f, Receipts(r), ReplyText(r), Some(LOCAL_MODEL)))
        else
          r["actual_model"] == model && model.Str? && Agree(f, Receipts(r), ReplyText(r), Some(model.text)))
  }

  /** Nothing is left to supply or strip. */
  ghost predicate Settled(r: Fields) {
    && "outcome" in r && "reviewed" in r && "verified" in r && "machine_verified" in r && "blocked" in r
    && (Get(r, "model") == Str(LOCAL_MODEL) ==> forall c | c in CLAIMS :: c !in r)
  }

  /** Fields sealing does not look at through the receipts. */
  predicate SameEvidence(r: Fields, s: Fields) {
    Receipts(r) == Receipts(s) && ReplyText(r) == ReplyText(s)
  }

  lemma WithoutClaimsKeeps(f: Foreign, r: Fields, more: set<Json>)
    ensures var s := WithoutClaims(f, r, more);
            && (forall k | k !in CLAIMS && k != "unverified_model_sha256" :: (k in s <==> k in r) && Get(s, k) == Get(r, k))
            && (forall c | c in CLAIMS :: c !in s)
  {
  }

  /** What sealing leaves: every field but the model's and the claims'. */
  ghost predicate Untouched(r: Fields, s: Fields) {
    forall k | k !in CLAIMS && k !in {"unverified_model_sha256", "actual_model", "model"} ::
      (k in s <==> k in r) && Get(s, k) == Get(r, k)
  }

  lemma SealKeeps(f: Foreign, r: Fields)
    requires Seal(f, r).Some?
    ensures Untouched(r, Seal(f, r).value)
    ensures Get(Seal(f, r).value, "model") == Str(LOCAL_MODEL) ==> forall c | c in CLAIMS :: c !in Seal(f, r).value
  {
    hide WithoutClaims, Trusted, Receipts, ReplyText;
    WithoutClaimsKeeps(f, r, {Get(r, "actual_model")});
    WithoutClaimsKeeps(f, r, {Get(r, "model"), Get(r, "actual_model")});
  }

  lemma UntouchedEvidence(r: Fields, s: Fields)
    requires Untouched(r, s)
    ensures SameEvidence(r, s)
  {
    assert Get(s, "_route") == Get(r, "_route") && Get(s, "reply") == Get(r, "reply");
    assert Get(s, "final_route_receipt") == Get(r, "final_route_receipt");
    assert "final_route_receipt" in s <==> "final_route_receipt" in r;
  }

  lemma SealAttributes(f: Foreign, r: Fields)
    requires Seal(f, r).Some?
    ensures Attributed(f, Seal(f, r).value)
  {
    hide WithoutClaims, Trusted, Agree, Receipts, ReplyText, Untouched, IsSpace, Blank;
    SealKeeps(f, r);
    UntouchedEvidence(r, Seal(f, r).value);
    var s := Seal(f, r).value;
    var trusted := Trusted(f, Receipts(r), ReplyText(r)).value;
    TrustedAgrees(f, Receipts(r), ReplyText(r), trusted);
    if Get(r, "model") == Str(LOCAL_MODEL) { SealedLocal(f, r); }
  }

  lemma SealSettles(f: Foreign, r: Fields)
    requires Seal(f, r).Some?
    requires "outcome" in r && "reviewed" in r && "verified" in r && "machine_verified" in r && "blocked" in r
    ensures Settled(Seal(f, r).value)
  {
    SealKeeps(f, r);
    hide Seal, Receipts, ReplyText;
  }

  /** A document that is attributed and settled is left as it is. */
  lemma SealFixes(f: Foreign, r: Fields)
    requires Attributed(f, r) && Settled(r)
    ensures Seal(f, r) == Some(r)
  {
    var model := Get(r, "model");
    if model == Str(LOCAL_MODEL) {
      TrustedAgrees(f, Receipts(r), ReplyText(r), None);
      TrustedAgrees(f, Receipts(r), ReplyText(r), Some(LOCAL_MODEL));
      assert Clean({Get(r, "actual_model")} + ClaimedIn(r)) == {};
      assert r - CLAIMS == r;
      assert r["actual_model" := Null] == r;
    } else {
      TrustedAgrees(f, Receipts(r), ReplyText(r), Some(model.text));
      assert r["actual_model" := model] == r;
    }
  }

  lemma OutcomeSupplied(f: Foreign, r: Fields)
    requires WithOutcome(f, r).Some?
    ensures var s := WithOutcome(f, r).value;
            "outcome" in s && (s["outcome"] == Str("completed") ==> s == r)
  {
    hide WithoutClaims, Progress, Truthy;
    assert "completed"[|"completed"| - 1] != "completed_unverified"[|"completed"| - 1] || |"completed"| != |"completed_unverified"|;
    assert "completed"[0] != "partial"[0] && "completed"[0] != "failed"[0];
  }

  lemma DefaultsSupplied(r: Fields)
    ensures var s := Defaulted(r);
            && (forall k | k in {"reviewed", "verified", "machine_verified", "blocked"} :: k in s)
            && (forall k | k in r :: k in s && s[k] == r[k])
            && (forall k | Flagged(s, k) && k in {"verified", "machine_verified"} :: Flagged(r, k))
            && Get(s, "outcome") == Get(r, "outcome")
  {
  }

  /** Whatever comes out satisfies the contract, is settled, and names as its model the local engine or the one
      model every verified receipt agrees on. */
  lemma NormalizedIsSealed(f: Foreign, value: Json)
    ensures var r := Normalize(f, value);
            r.Some? ==> Validates(r.value) && Settled(r.value) && Attributed(f, r.value)
  {
    if value.Obj? && WithOutcome(f, value.fields).Some? {
      var given := WithOutcome(f, value.fields).value;
      var r := Defaulted(given);
      OutcomeSupplied(f, value.fields);
      DefaultsSupplied(given);
      hide Seal, Validates, Attributed, Settled, WithOutcome, Defaulted;
      if Seal(f, r).Some? {
        SealAttributes(f, r);
        SealSettles(f, r);
      }
    }
  }

  /** The results normalising leaves alone are exactly the valid, settled and attributed ones. */
  lemma NormalizeFixes(f: Foreign, r: Fields)
    ensures Normalize(f, Obj(r)) == Some(r) <==> Validates(r) && Settled(r) && Attributed(f, r)
  {
    if Validates(r) && Settled(r) && Attributed(f, r) {
      SealFixes(f, r);
      assert Defaulted(r) == r;
      hide Seal, Validates, Attributed;
    }
    NormalizedIsSealed(f, Obj(r));
  }

  lemma NormalizeIdempotent(f: Foreign, value: Json)
    ensures var r := Normalize(f, value);
            r.Some? ==> Normalize(f, Obj(r.value)) == r
  {
    hide Normalize, Validates, Settled, Attributed;
    NormalizedIsSealed(f, value);
    if Normalize(f, value).Some? {
      NormalizeFixes(f, Normalize(f, value).value);
    }
  }

  lemma FlagsUntouched(r: Fields, s: Fields)
    requires Untouched(r, s)
    ensures Get(r, "outcome") == Get(s, "outcome")
    ensures Get(r, "verified") == Get(s, "verified") && Get(r, "machine_verified") == Get(s, "machine_verified")
  {
  }

  /** Completion is never invented: a completed result was given as completed and as verified by both. */
  lemma NeverPromoted(f: Foreign, value: Json)
    ensures var r := Normalize(f, value);
            r.Some? && Get(r.value, "outcome") == Str("completed") ==>
              Get(value.fields, "outcome") == Str("completed")
              && Flagged(value.fields, "verified") && Flagged(value.fields, "machine_verified")
  {
    if Normalize(f, value).Some? {
      var r := Normalize(f, value).value;
      var given := WithOutcome(f, value.fields).value;
      OutcomeSupplied(f, value.fields);
      DefaultsSupplied(given);
      SealKeeps(f, Defaulted(given));
      assert r == Seal(f, Defaulted(given)).value;
      hide Seal, WithOutcome, Defaulted, Normalize;
      FlagsUntouched(Defaulted(given), r);
      if Get(r, "outcome") == Str("completed") { CompletedVerified(r); }
    }
  }

  lemma CompletedVerified(r: Fields)
    requires Validates(r) && Get(r, "outcome") == Str("completed")
    ensures Flagged(r, "verified") && Flagged(r, "machine_verified")
  {
  }

  // ---------------------------------------------------------------------------
  // What becomes of a document
  // ---------------------------------------------------------------------------

  /** The engine stopped without a word: no outcome, no reason, and a reply with nothing to show. */
  predicate FellSilent(r: Fields) {
    "outcome" !in r && !Truthy(Get(r, "stopped_reason")) && Get(r, "reply").Str? && Blank(Get(r, "reply").text)
  }

  /** It is given a reply, a reason and the local author; nothing else but the outcome and the claims changes. */
  ghost predicate Silenced(r: Fields, s: Fields) {
    && Get(s, "reply") == Str(EMPTY_REPLY) && Get(s, "model") == Str(LOCAL_MODEL)
    && Get(s, "stopped_reason") == Str("empty_response")
    && (forall k | k !in CLAIMS && k !in {"unverified_model_sha256", "actual_model", "model"} &&
                   k !in {"reply", "stopped_reason", "outcome"} ::
          (k in s <==> k in r) && Get(s, k) == Get(r, k))
  }

  lemma SilenceRewrites(f: Foreign, r: Fields)
    requires FellSilent(r)
    ensures WithOutcome(f, r).Some? && Silenced(r, WithOutcome(f, r).value)
    ensures Get(WithOutcome(f, r).value, "outcome") == Str(if Progress(r) then "partial" else "failed")
  {
    hide WithoutClaims, Progress, Truthy, Blank;
    WithoutClaimsKeeps(f, r, {Get(r, "model")});
  }

  lemma OutcomeFields(f: Foreign, r: Fields)
    requires WithOutcome(f, r).Some?
    ensures var s := WithOutcome(f, r).value;
            && (FellSilent(r) ==> Silenced(r, s))
            && (!FellSilent(r) ==> s == r["outcome" := Get(s, "outcome")])
            && Get(s, "outcome") ==
               (if "outcome" in r then r["outcome"]
                else if Truthy(Get(r, "stopped_reason")) || FellSilent(r) then Str(if Progress(r) then "partial" else "failed")
                else Str("completed_unverified"))
  {
    hide WithoutClaims, Progress, Truthy, Blank, Silenced, Default;
    if FellSilent(r) {
      SilenceRewrites(f, r);
    } else if "outcome" in r {
      assert r["outcome" := r["outcome"]] == r;
    }
  }

  /** What an accepted document says: a given outcome is kept. Without one, a reply nothing stopped is completed but
      unverified, anything else is partial if it shows progress and failed if not; silence gets a reply, a reason and
      the local author of its own. */
  lemma NormalizedOutcome(f: Foreign, r: Fields)
    requires Normalize(f, Obj(r)).Some?
    ensures var s := Normalize(f, Obj(r)).value;
            && Get(s, "outcome") ==
               (if "outcome" in r then r["outcome"]
                else if Truthy(Get(r, "stopped_reason")) || FellSilent(r) then Str(if Progress(r) then "partial" else "failed")
                else Str("completed_unverified"))
            && Get(s, "reply") == (if FellSilent(r) then Str(EMPTY_REPLY) else Get(r, "reply"))
            && Get(s, "stopped_reason") == (if FellSilent(r) then Str("empty_response") else Get(r, "stopped_reason"))
            && (FellSilent(r) ==> Get(s, "model") == Str(LOCAL_MODEL))
  {
    hide WithOutcome, Defaulted, Seal, Validates, FellSilent, Progress, Truthy, Untouched;
    var given := WithOutcome(f, r).value;
    OutcomeFields(f, r);
    DefaultsLeave(given);
    SealKeeps(f, Defaulted(given));
    UntouchedSays(Defaulted(given), Seal(f, Defaulted(given)).value);
    if FellSilent(r) { SealedLocal(f, Defaulted(given)); }
  }

  /** Whatever else the document held stays as it was. */
  lemma NormalizedKeeps(f: Foreign, r: Fields, k: string)
    requires Normalize(f, Obj(r)).Some? && k in r
    requires k !in CLAIMS && k !in {"unverified_model_sha256", "actual_model", "model"}
    requires k !in {"reply", "stopped_reason", "outcome"}
    ensures k in Normalize(f, Obj(r)).value && Normalize(f, Obj(r)).value[k] == r[k]
  {
    hide WithOutcome, Defaulted, Seal, Validates, FellSilent, Progress, Truthy, Default;
    var given := WithOutcome(f, r).value;
    OutcomeFields(f, r);
    DefaultsSupplied(given);
    SealKeeps(f, Defaulted(given));
    assert k in given && given[k] == r[k];
  }

  lemma DefaultsLeave(r: Fields)
    ensures var s := Defaulted(r);
            forall k | k in {"outcome", "reply", "stopped_reason", "model"} :: Get(s, k) == Get(r, k)
  {
  }

  lemma UntouchedSays(r: Fields, s: Fields)
    requires Untouched(r, s)
    ensures Get(s, "outcome") == Get(r, "outcome") && Get(s, "reply") == Get(r, "reply")
    ensures Get(s, "stopped_reason") == Get(r, "stopped_reason")
  {
  }

  /** The local engine stays the author of what it was named the author of. */
  lemma SealedLocal(f: Foreign, r: Fields)
    requires Seal(f, r).Some? && Get(r, "model") == Str(LOCAL_MODEL)
    ensures Get(Seal(f, r).value, "model") == Str(LOCAL_MODEL)
  {
    hide Trusted, Receipts;
    WithoutClaimsKeeps(f, r, {Get(r, "actual_model")});
    hide WithoutClaims;
  }

  /** The receipts agree, and a model they name is the one the document names, as is the actual model it states. */
  ghost predicate Vouched(f: Foreign, receipts: seq<Json>, reply: string, r: Fields) {
    exists trusted :: Agree(f, receipts, reply, trusted) && (trusted.Some? ==> Matches(r, trusted.value))
  }

  predicate Matches(r: Fields, model: string) {
    Get(r, "model") == Str(model) && (model != LOCAL_MODEL && "actual_model" in r ==> r["actual_model"] == Str(model))
  }

  lemma SealDecides(f: Foreign, r: Fields)
    ensures Seal(f, r).Some? <==> Vouched(f, Receipts(r), ReplyText(r), r)
  {
    hide Trusted, Receipts, ReplyText, Agree, WithoutClaims;
    forall trusted ensures Trusted(f, Receipts(r), ReplyText(r)) == Some(trusted) <==> Agree(f, Receipts(r), ReplyText(r), trusted) {
      TrustedAgrees(f, Receipts(r), ReplyText(r), trusted);
    }
  }

  /** Every author the document names, in whatever field, but the local engine. */
  function NamedAuthors(r: Fields): set<string> {
    NamedIn(r, CLAIMS + {"model", "actual_model"})
  }

  function NamedIn(r: Fields, keys: set<string>): set<string> {
    set k | k in keys && Get(r, k).Str? && Get(r, k).text !in {"", LOCAL_MODEL} :: Get(r, k).text
  }

  lemma NamedAre(r: Fields, keys: set<string>, values: set<Json>)
    requires values == set k | k in keys :: Get(r, k)
    ensures NamedIn(r, keys) == Clean(values)
  {
  }

  /** A document that fell silent keeps none of the names it claimed either, only a digest of them, before it is sealed
      for the local engine. */
  lemma SilenceRecords(f: Foreign, r: Fields)
    requires FellSilent(r)
    ensures WithOutcome(f, r).Some?
    ensures var s := WithOutcome(f, r).value;
            var names := NamedIn(r, CLAIMS + {"model"});
            && Get(s, "unverified_model_sha256") ==
               (if names == {} then Get(r, "unverified_model_sha256") else Str(f.digest(names)))
            && (forall c | c in CLAIMS :: c !in s) && "actual_model" in s && Get(s, "actual_model") == Get(r, "actual_model")
  {
    hide WithoutClaims, Clean, NamedIn, ClaimedIn, Blank, Truthy, Progress;
    var model := Get(r, "model");
    ClaimedAre(r);
    RecordedDigest(f, r, {model});
    WithoutClaimsKeeps(f, r, {model});
    SilenceSpells(WithoutClaims(f, r, {model}), Str(if Progress(r) then "partial" else "failed"));
  }

  lemma ClaimedAre(r: Fields)
    ensures NamedIn(r, CLAIMS + {"model"}) == Clean({Get(r, "model")} + ClaimedIn(r))
  {
    NamedAre(r, CLAIMS + {"model"}, {Get(r, "model")} + ClaimedIn(r));
  }

  lemma SilenceSpells(r: Fields, outcome: Json)
    ensures var s := Default(r, "actual_model", Null)["reply" := Str(EMPTY_REPLY)]["model" := Str(LOCAL_MODEL)]
                     ["stopped_reason" := Str("empty_response")]["outcome" := outcome];
            && Get(s, "unverified_model_sha256") == Get(r, "unverified_model_sha256")
            && (forall c | c in CLAIMS :: c in s <==> c in r)
            && "actual_model" in s && Get(s, "actual_model") == Get(r, "actual_model")
  {
  }

  /** A document sealed for another model than the local engine is left as it was, down to the actual model; a
      document sealed for the local engine keeps no name, only a digest of all it named. */
  lemma SealRecords(f: Foreign, r: Fields)
    requires Seal(f, r).Some?
    ensures var s := Seal(f, r).value;
            if Get(s, "model") != Str(LOCAL_MODEL) then s == r["actual_model" := Get(r, "model")]
            else Get(s, "unverified_model_sha256") ==
                 (if NamedAuthors(r) == {} then Get(r, "unverified_model_sha256") else Str(f.digest(NamedAuthors(r))))
  {
    var model := Get(r, "model");
    var actual := Get(r, "actual_model");
    NamesAreClean(r);
    RecordedDigest(f, r, {actual});
    RecordedDigest(f, r, {model, actual});
    if model == Str(LOCAL_MODEL) { SealedLocal(f, r); }
    hide Trusted, Receipts, ReplyText, WithoutClaims, Clean, NamedAuthors, ClaimedIn;
  }

  lemma NamesAreClean(r: Fields)
    ensures NamedAuthors(r) == Clean({Get(r, "model"), Get(r, "actual_model")} + ClaimedIn(r))
    ensures Get(r, "model") == Str(LOCAL_MODEL) ==> NamedAuthors(r) == Clean({Get(r, "actual_model")} + ClaimedIn(r))
  {
    NamedAre(r, CLAIMS + {"model", "actual_model"}, {Get(r, "model"), Get(r, "actual_model")} + ClaimedIn(r));
  }

  lemma RecordedDigest(f: Foreign, r: Fields, more: set<Json>)
    ensures var names := Clean(more + ClaimedIn(r));
            Get(WithoutClaims(f, r, more), "unverified_model_sha256") ==
            (if names == {} then Get(r, "unverified_model_sha256") else Str(f.digest(names)))
  {
    assert "unverified_model_sha256" !in CLAIMS;
  }

  /** The document validates, whoever its author. */
  predicate ValidatesUnsigned(r: Fields) {
    Validates(r["model" := Str(LOCAL_MODEL)])
  }

  lemma Utf8Bound(s: string)
    ensures Utf8Length(s) <= 4 * |s|
  {
  }

  lemma LocalIsBounded()
    ensures BoundedId(Str(LOCAL_MODEL))
  {
    hide Utf8Length;
    Utf8Bound(LOCAL_MODEL);
    assert |LOCAL_MODEL| == 14;
  }

  lemma AgreedIsBounded(f: Foreign, receipts: seq<Json>, reply: string, model: string)
    requires Agree(f, receipts, reply, Some(model))
    ensures BoundedId(Str(model))
  {
    hide Utf8Length, IsSpace;
    var x :| x in receipts && ReceiptVerdict(f, x, reply) == Names(model);
  }

  /** What sealing supplies as the author is always an author. */
  lemma SealedBounded(f: Foreign, r: Fields)
    requires Seal(f, r).Some?
    ensures BoundedId(Get(Seal(f, r).value, "model"))
  {
    hide Seal, Trusted, Receipts, ReplyText, BoundedId, Agree;
    SealAttributes(f, r);
    var s := Seal(f, r).value;
    if Get(s, "model") == Str(LOCAL_MODEL) {
      LocalIsBounded();
    } else {
      AgreedIsBounded(f, Receipts(s), ReplyText(s), Get(s, "model").text);
    }
  }

  lemma UntouchedValidates(r: Fields, s: Fields)
    requires Untouched(r, s) && BoundedId(Get(s, "model"))
    ensures Validates(s) <==> ValidatesUnsigned(r)
  {
    hide BoundedId, Blank, Utf8Length, Untouched;
    LocalIsBounded();
    var t := r["model" := Str(LOCAL_MODEL)];
    SignedGet(r, Str(LOCAL_MODEL));
    UntouchedFields(r, s);
    assert forall k | k in {"video_task", "job_id", "task_id"} :: Get(s, k) == Get(t, k);
    assert forall k | k in {"reply", "outcome", "blocked", "stopped_reason", "reviewed", "verified", "machine_verified"} ::
        Get(s, k) == Get(t, k);
  }

  lemma UntouchedFields(r: Fields, s: Fields)
    requires Untouched(r, s)
    ensures forall k | k in {"reply", "outcome", "blocked", "stopped_reason", "reviewed", "verified", "machine_verified"} ::
              Get(s, k) == Get(r, k)
    ensures forall k | k in {"video_task", "job_id", "task_id"} :: Get(s, k) == Get(r, k)
  {
  }

  lemma DefaultsEvidence(f: Foreign, r: Fields)
    ensures SameEvidence(r, Defaulted(r))
    ensures Vouched(f, Receipts(r), ReplyText(r), Defaulted(r)) <==> Vouched(f, Receipts(r), ReplyText(r), r)
  {
    hide Defaulted, Agree;
    var d := Defaulted(r);
    DefaultsOnly(r);
    assert forall k | k in {"_route", "reply", "final_route_receipt", "model", "actual_model"} ::
        (k in d <==> k in r) && Get(d, k) == Get(r, k);
    assert Receipts(r) == Receipts(d);
    hide Receipts;
    forall model ensures Matches(d, model) <==> Matches(r, model) {
    }
  }

  lemma DefaultsOnly(r: Fields)
    ensures forall k | k !in {"reviewed", "verified", "machine_verified", "blocked"} ::
              (k in Defaulted(r) <==> k in r) && Get(Defaulted(r), k) == Get(r, k)
  {
  }

  lemma SuppliedAcceptedIff(f: Foreign, r: Fields)
    requires WithOutcome(f, r).Some?
    ensures var given := WithOutcome(f, r).value;
            Normalize(f, Obj(r)).Some? <==>
            Vouched(f, Receipts(given), ReplyText(given), given) && ValidatesUnsigned(Defaulted(given))
  {
    hide WithOutcome, Defaulted, Seal, Validates, ValidatesUnsigned, Vouched, Untouched, Receipts, ReplyText, BoundedId, Matches, Agree;
    var given := WithOutcome(f, r).value;
    var d := Defaulted(given);
    DefaultsEvidence(f, given);
    SealDecides(f, d);
    if Seal(f, d).Some? {
      SealKeeps(f, d);
      SealedBounded(f, d);
      UntouchedValidates(d, Seal(f, d).value);
    }
  }

  /** A document with an outcome of its own is accepted exactly if its receipts vouch for its model and, but for that,
      it satisfies the contract. */
  lemma GivenAcceptedIff(f: Foreign, r: Fields)
    requires "outcome" in r
    ensures Normalize(f, Obj(r)).Some? <==>
            Vouched(f, Receipts(r), ReplyText(r), r) && ValidatesUnsigned(Defaulted(r))
  {
    hide Normalize, Vouched, ValidatesUnsigned, Defaulted;
    SuppliedAcceptedIff(f, r);
  }

  lemma SilentReply()
    ensures !Blank(EMPTY_REPLY) && Utf8Length(EMPTY_REPLY) <= MAX_REPLY_BYTES
  {
    hide Utf8Length;
    Utf8Bound(EMPTY_REPLY);
    assert !IsSpace(EMPTY_REPLY[0]);
  }

  predicate Showable(reply: Json) {
    reply.Str? && !Blank(reply.text) && Utf8Length(reply.text) <= MAX_REPLY_BYTES
  }

  predicate KnownReason(stopped: Json) {
    stopped.Str? && stopped.text in STOPPED_REASONS
  }

  /** Neither verification nor a block is claimed. */
  predicate Modest(r: Fields) {
    && (Get(r, "reviewed").Null? || Get(r, "reviewed").Bool?)
    && Unflagged(Get(r, "verified")) && Unflagged(Get(r, "machine_verified"))
    && ("blocked" in r ==> r["blocked"] == Bool(false))
  }

  lemma OutcomesDiffer(o: string)
    requires o in {"partial", "failed", "completed_unverified"}
    ensures o in OUTCOMES && o !in {"completed", "blocked", "rejected_capacity", "accepted_async"}
    ensures o == "completed_unverified" <==> o !in {"partial", "failed"}
  {
    assert "partial"[0] != "blocked"[0];
    assert "failed"[0] != "partial"[0] && |"failed"| == 6;
    assert |"completed_unverified"| == 20 && |"completed"| == 9 && |"accepted_async"| == 14 && |"rejected_capacity"| == 17;
  }

  predicate Unflagged(value: Json) {
    value.Null? || value == Bool(false)
  }

  lemma ModestValid(r: Fields, outcome: string)
    requires outcome in {"partial", "failed", "completed_unverified"} && Get(r, "outcome") == Str(outcome)
    ensures Validates(r) <==>
            && Showable(Get(r, "reply")) && BoundedId(Get(r, "model")) && Get(r, "blocked") == Bool(false)
            && (Get(r, "stopped_reason").Null? || (KnownReason(Get(r, "stopped_reason")) && outcome != "completed_unverified"))
            && (Get(r, "reviewed").Null? || Get(r, "reviewed").Bool?)
            && Unflagged(Get(r, "verified")) && Unflagged(Get(r, "machine_verified"))
  {
    hide BoundedId, Blank, Utf8Length, Get;
    OutcomesDiffer(outcome);
  }

  lemma SuppliedValid(r: Fields, outcome: string)
    requires outcome in {"partial", "failed", "completed_unverified"} && Get(r, "outcome") == Str(outcome)
    ensures ValidatesUnsigned(Defaulted(r)) <==>
            && Showable(Get(r, "reply")) && Modest(r)
            && (Get(r, "stopped_reason").Null? || (KnownReason(Get(r, "stopped_reason")) && outcome != "completed_unverified"))
  {
    hide Validates, Defaulted, BoundedId, Showable, KnownReason;
    OutcomesDiffer(outcome);
    DefaultedFlags(r);
    DefaultsOnly(r);
    LocalIsBounded();
    var t := Defaulted(r)["model" := Str(LOCAL_MODEL)];
    SignedGet(Defaulted(r), Str(LOCAL_MODEL));
    ModestValid(t, outcome);
  }

  lemma SignedGet(r: Fields, model: Json)
    ensures Get(r["model" := model], "model") == model
    ensures forall k | k != "model" :: Get(r["model" := model], k) == Get(r, k)
  {
  }

  lemma DefaultedFlags(r: Fields)
    ensures var d := Defaulted(r);
            && (forall k | k in {"reviewed", "verified", "machine_verified"} :: Get(d, k) == if k in r then r[k] else Bool(false))
            && Get(d, "blocked") ==
               (if "blocked" in r then r["blocked"]
                else Bool(Get(r, "outcome") in {Str("blocked"), Str("rejected_capacity")}))
  {
  }

  /** What a document without an outcome says of itself, but for its author: a bounded text, shown unless it fell
      silent; a known reason if it stopped; and neither verification nor a block. */
  predicate Tellable(r: Fields) {
    && Modest(r)
    && (FellSilent(r) || (Showable(Get(r, "reply")) &&
                          (Get(r, "stopped_reason").Null? || KnownReason(Get(r, "stopped_reason")))))
  }

  lemma SpokeAcceptedIff(f: Foreign, r: Fields)
    requires "outcome" !in r && !FellSilent(r)
    ensures Normalize(f, Obj(r)).Some? <==> Tellable(r) && Vouched(f, Receipts(r), ReplyText(r), r)
  {
    hide Seal, Validates, Vouched, ValidatesUnsigned, Defaulted, Progress, Blank, Utf8Length, Receipts, Modest, WithoutClaims, Truthy;
    if WithOutcome(f, r).Some? {
      SuppliedAcceptedIff(f, r);
      var given := WithOutcome(f, r).value;
      var outcome := Get(given, "outcome").text;
      OutcomeGiven(f, r, outcome);
      SuppliedValid(given, outcome);
      KnownIsTruthy(Get(r, "stopped_reason"));
    }
  }

  lemma KnownIsTruthy(stopped: Json)
    ensures KnownReason(stopped) ==> Truthy(stopped)
    ensures stopped.Null? ==> !Truthy(stopped)
  {
  }

  /** Supplying an outcome says nothing else. */
  lemma OutcomeGiven(f: Foreign, r: Fields, outcome: string)
    ensures var s := r["outcome" := Str(outcome)];
            && (forall k | k != "outcome" :: Get(s, k) == Get(r, k))
            && (Vouched(f, Receipts(s), ReplyText(s), s) <==> Vouched(f, Receipts(r), ReplyText(r), r))
            && (Modest(s) <==> Modest(r))
  {
    var s := r["outcome" := Str(outcome)];
    assert forall k | k != "outcome" :: (k in s <==> k in r) && Get(s, k) == Get(r, k);
    assert "final_route_receipt" in s <==> "final_route_receipt" in r;
    assert Get(s, "_route") == Get(r, "_route");
    assert Receipts(s) == Receipts(r) && ReplyText(s) == ReplyText(r);
    hide Agree, Receipts;
    forall model ensures Matches(s, model) <==> Matches(r, model) {
      assert "actual_model" in s <==> "actual_model" in r;
    }
  }

  lemma SilentAcceptedIff(f: Foreign, r: Fields)
    requires FellSilent(r)
    ensures Normalize(f, Obj(r)).Some? <==>
            Modest(r) && Vouched(f, Receipts(r), EMPTY_REPLY, map["model" := Str(LOCAL_MODEL)])
  {
    hide Normalize, Vouched, ValidatesUnsigned, Defaulted, Progress, Blank, Utf8Length, Receipts, Modest, WithoutClaims, Truthy,
         Showable, KnownReason;
    SuppliedAcceptedIff(f, r);
    OutcomeFields(f, r);
    hide WithOutcome, FellSilent, Silenced, Defaulted, ReplyText;
    var given := WithOutcome(f, r).value;
    SilenceKeeps(f, r, given);
    SuppliedValid(given, Get(given, "outcome").text);
    SilentReply();
  }

  lemma SilenceKeeps(f: Foreign, r: Fields, s: Fields)
    requires Silenced(r, s)
    ensures Modest(s) <==> Modest(r)
    ensures Vouched(f, Receipts(s), ReplyText(s), s) <==>
            Vouched(f, Receipts(r), EMPTY_REPLY, map["model" := Str(LOCAL_MODEL)])
    ensures Showable(Get(s, "reply")) && KnownReason(Get(s, "stopped_reason"))
  {
    hide Agree, Blank, Utf8Length, Receipts;
    SilentReply();
    SilenceEvidence(r, s);
    forall model ensures Matches(s, model) <==> Matches(map["model" := Str(LOCAL_MODEL)], model) {
    }
  }

  lemma SilenceEvidence(r: Fields, s: Fields)
    requires Silenced(r, s)
    ensures Receipts(s) == Receipts(r)
    ensures Modest(s) <==> Modest(r)
  {
    assert forall k | k in {"_route", "final_route_receipt", "reviewed", "verified", "machine_verified", "blocked"} ::
        (k in s <==> k in r) && Get(s, k) == Get(r, k);
    hide Silenced;
  }

  /** A document without an outcome is accepted exactly if what it says of itself holds together and its receipts vouch
      for its author, which is the local engine where it fell silent. */
  lemma LegacyAcceptedIff(f: Foreign, r: Fields)
    requires "outcome" !in r
    ensures Normalize(f, Obj(r)).Some? <==>
            Tellable(r) && (if FellSilent(r) then Vouched(f, Receipts(r), EMPTY_REPLY, map["model" := Str(LOCAL_MODEL)])
                            else Vouched(f, Receipts(r), ReplyText(r), r))
  {
    hide Normalize, Vouched, Receipts, FellSilent, Modest;
    if FellSilent(r) { SilentAcceptedIff(f, r); } else { SpokeAcceptedIff(f, r); }
  }

  // ---------------------------------------------------------------------------
  // What the judgements mean
  // ---------------------------------------------------------------------------

  /** An author is a text of at most 512 bytes that stripping leaves alone, without control characters. */
  lemma BoundedIdMeans(text: string)
    ensures BoundedId(Str(text)) <==>
            && text != "" && Strip(text) == text && Utf8Length(text) <= 512
            && !exists c :: c in text && ((c as int) < 32 || c as int == 127)
  {
    StripLeaves(text);
    hide IsSpace, Utf8Length, Strip;
  }

  /** What an outcome demands: both verifications or neither, whether the turn counts as blocked, whether a reason for
      stopping may be given, and whether a task must be named that goes on. */
  datatype Demand = Demand(verified: bool, blocked: bool, mayStop: bool, needsTask: bool)

  function Demands(outcome: string): Demand {
    if outcome == "completed" then Demand(true, false, false, false)
    else if outcome == "blocked" then Demand(false, true, true, false)
    else if outcome == "rejected_capacity" then Demand(false, true, false, false)
    else if outcome == "accepted_async" then Demand(false, false, false, true)
    else Demand(false, false, outcome == "partial" || outcome == "failed", false)
  }

  /** A document satisfies the contract exactly if it shows a bounded reply of a bounded author, its outcome is one of
      the seven, and it says of itself what that outcome demands. */
  lemma ValidatesAsDemanded(r: Fields, outcome: string)
    requires Get(r, "outcome") == Str(outcome)
    ensures Validates(r) <==>
            && outcome in OUTCOMES && Showable(Get(r, "reply")) && BoundedId(Get(r, "model"))
            && var d := Demands(outcome);
            && Get(r, "blocked") == Bool(d.blocked)
            && (Get(r, "reviewed").Null? || Get(r, "reviewed").Bool?)
            && (forall f | f in {"verified", "machine_verified"} ::
                  if d.verified then Get(r, f) == Bool(true) else Unflagged(Get(r, f)))
            && (Get(r, "stopped_reason").Null? || (d.mayStop && KnownReason(Get(r, "stopped_reason"))))
            && (d.needsTask ==> BoundedId(Get(r, "video_task")) || BoundedId(Get(r, "job_id")) || BoundedId(Get(r, "task_id")))
  {
    hide BoundedId, Blank, Utf8Length, Get;
    OutcomesApart(outcome);
  }

  lemma OutcomesApart(outcome: string)
    ensures outcome in {"completed", "accepted_async"} ==> outcome !in {"partial", "failed", "blocked"}
    ensures outcome == "rejected_capacity" ==> outcome !in {"partial", "failed", "blocked"}
    ensures outcome == "completed" ==> outcome != "accepted_async"
    ensures outcome in {"partial", "failed"} ==> outcome !in {"blocked", "rejected_capacity"}
  {
    assert "blocked"[0] != "partial"[0];
    assert |"rejected_capacity"| == 17 && |"completed"| == 9 && |"accepted_async"| == 14 && |"failed"| == 6;
  }

  /** A receipt names a model exactly if its attestation holds for the reply and it is complete and of version 1: the
      actual model, not contradicted by another name, the route's four identities, and no identity error. It
      contradicts itself if it is attested but does not hold, or names two models. */
  lemma VerdictMeans(f: Foreign, value: Json, reply: string, model: string)
    ensures ReceiptVerdict(f, value, reply) == Names(model) <==>
            && value.Obj? && f.verify(value.fields, reply)
            && Get(value.fields, "route_receipt_version") in {Int(1), Bool(true), Float(1.0)}
            && Get(value.fields, "actual_model") == Str(model)
            && Get(value.fields, "model") in {Null, Str(model)} && Get(value.fields, "model_identity_error").Null?
            && BoundedId(Str(model))
            && BoundedId(Get(value.fields, "provider")) && BoundedId(Get(value.fields, "upstream_model"))
            && BoundedId(Get(value.fields, "observed_model")) && BoundedId(Get(value.fields, "model_family"))
    ensures ReceiptVerdict(f, value, reply).Contradicts? <==>
            && value.Obj?
            && if !f.verify(value.fields, reply) then ATTESTATION_FIELD in value.fields
               else
                 && Get(value.fields, "route_receipt_version") in {Int(1), Bool(true), Float(1.0)}
                 && BoundedId(Get(value.fields, "actual_model"))
                 && Get(value.fields, "model") !in {Null, Get(value.fields, "actual_model")}
  {
    hide Utf8Length, IsSpace, Get;
  }

  /** A document's receipts are its own final one and its route's, or the route itself if that has none but is one. */
  lemma ReceiptsAre(r: Fields, x: Json)
    ensures x in Receipts(r) <==>
            || ("final_route_receipt" in r && x == r["final_route_receipt"])
            || (Get(r, "_route").Obj? &&
                var route := Get(r, "_route").fields;
                if "final_route_receipt" in route then x == route["final_route_receipt"]
                else x == Get(r, "_route") && !Get(route, "route_receipt_version").Null?)
  {
  }

  /** Neither null, nor false, nor zero, nor empty. */
  predicate Something(value: Json) {
    value !in {Null, Bool(false), Int(0), Float(0.0), Str(""), List([]), Obj(map[])}
  }

  lemma TruthyIsSomething(value: Json)
    ensures Truthy(value) <==> Something(value)
  {
  }

  /** A turn shows progress if it took steps, or logged, changed, or made anything. */
  lemma ProgressMeans(r: Fields)
    ensures Progress(r) <==>
            || (Get(r, "steps").Int? && Get(r, "steps").value >= 1)
            || (exists k :: k in {"tool_log", "file_changes", "media", "pending_videos"} && Something(Get(r, k)))
  {
    hide Truthy, Something;
    forall value ensures Truthy(value) <==> Something(value) {
      TruthyIsSomething(value);
    }
    var made := {"tool_log", "file_changes", "media", "pending_videos"};
    assert forall k :: k in made <==> k == "tool_log" || k == "file_changes" || k == "media" || k == "pending_videos";
    if Something(Get(r, "tool_log")) || Something(Get(r, "file_changes")) {
      assert "tool_log" in made && "file_changes" in made;
    }
    if Something(Get(r, "media")) || Something(Get(r, "pending_videos")) {
      assert "media" in made && "pending_videos" in made;
    }
  }
}
