/** The public result of one durable channel turn: sanitising, minting attribution
    metadata, and projecting a stored result for replay. */
module ChannelResult {

  datatype Json =
    | Null
    | Bool(flag: bool)
    | Int(value: int)
    | Float(number: real)
    | Str(text: string)
    | List(items: seq<Json>)
    | Obj(fields: Fields)

  type Fields = map<string, Json>

  const RESULT_VERSION := 2
  const PROVIDER_ATTESTED := "provider_attested"
  const LOCAL_ENGINE := "local_engine"
  const LOCAL_MODEL := "nachuan-engine"
  const UNREADABLE_REPLY := "历史回复无法安全读取，请重新发送本轮消息。"
  const RECOVERY_REPLY := "这次没有完成；若涉及付费或不可逆操作，请先在纳川管理端确认，普通对话稍后再试即可。"

  const RESPONSE_FIELDS: set<string> := {
    "reply", "model", "channel_result_version", "attribution_state", "turns", "usage",
    "agent_route", "orchestration_mode", "reviewed", "verified", "machine_verified", "outcome",
    "blocked", "images", "video", "video_task", "job_id", "task_id", "trace_id", "recovery_id",
    "notice_trace_id"
  }
  const ROUTE_FIELDS: set<string> := {
    "label", "store", "reused_case_id", "pending_card_id", "stored_case_id", "store_blocked_reason"
  }
  const ORCHESTRATION_FIELDS: set<string> := {
    "mode", "rounds", "escalated", "timed_out", "reviewed", "verified", "machine_verified", "outcome",
    "review_reason", "review_unavailable_reason"
  }

  /** Dictionary lookup; a missing key reads as null. */
  function Get(fields: Fields, key: string): Json {
    if key in fields then fields[key] else Null
  }

  predicate IsScalar(item: Json) {
    item.Str? || item.Int? || item.Bool?
  }

  /** White space as `str.strip` knows it. */
  predicate IsSpace(c: char) {
    var n := c as int;
    || 0x09 <= n <= 0x0d || 0x1c <= n <= 0x20 || n == 0x85 || n == 0xa0 || n == 0x1680
    || 0x2000 <= n <= 0x200a || n == 0x2028 || n == 0x2029 || n == 0x202f || n == 0x205f || n == 0x3000
  }

  predicate Blank(s: string) {
    forall c | c in s :: IsSpace(c)
  }

  function StripLeft(s: string): (r: string)
    ensures |r| <= |s| && (|r| == |s| ==> r == s)
    ensures r != "" ==> !IsSpace(r[0])
  {
    if s != "" && IsSpace(s[0]) then StripLeft(s[1..]) else s
  }

  function StripRight(s: string): (r: string)
    ensures |r| <= |s| && (|r| == |s| ==> r == s)
    ensures r != "" ==> !IsSpace(r[|r| - 1])
  {
    if s != "" && IsSpace(s[|s| - 1]) then StripRight(s[..|s| - 1]) else s
  }

  /** The text between its white space. */
  function Strip(s: string): string {
    StripRight(StripLeft(s))
  }

  /** A text is blank exactly if stripping leaves nothing of it. */
  lemma BlankIsStripped(s: string)
    ensures Blank(s) <==> Strip(s) == ""
  {
    hide IsSpace;
    LeftBlank(s);
    RightBlank(StripLeft(s));
    if StripLeft(s) != "" { assert StripLeft(s)[0] in StripLeft(s); }
  }

  lemma {:induction false} LeftBlank(s: string)
    ensures Blank(s) <==> StripLeft(s) == ""
  {
    hide IsSpace;
    if s != "" {
      LeftBlank(s[1..]);
      assert s == [s[0]] + s[1..];
    }
  }

  lemma {:induction false} RightBlank(s: string)
    ensures Blank(s) <==> StripRight(s) == ""
  {
    hide IsSpace;
    if s != "" {
      RightBlank(s[..|s| - 1]);
      assert s == s[..|s| - 1] + [s[|s| - 1]];
    }
  }

  /** Stripping leaves a text alone exactly if it neither begins nor ends with white space. */
  lemma StripLeaves(s: string)
    ensures Strip(s) == s <==> s == "" || (!IsSpace(s[0]) && !IsSpace(s[|s| - 1]))
  {
    hide IsSpace;
  }

  function Utf8Width(c: char): nat {
    var n := c as int;
    if n < 0x80 then 1 else if n < 0x800 then 2 else if n < 0x1_0000 then 3 else 4
  }

  function Utf8Length(s: string): nat {
    if s == "" then 0 else Utf8Width(s[0]) + Utf8Length(s[1..])
  }

  /** The code points that so many bytes can carry (RFC 3629, section 3). */
  function Utf8Capacity(bytes: nat): nat {
    if bytes == 0 then 0 else if bytes == 1 then 0x80 else if bytes == 2 then 0x800 else if bytes == 3 then 0x1_0000 else 0x11_0000
  }

  /** A character takes the fewest bytes that can carry it. */
  lemma Utf8IsShortest(c: char, bytes: nat)
    ensures 1 <= Utf8Width(c) <= 4
    ensures Utf8Width(c) <= bytes <==> (c as int) < Utf8Capacity(bytes)
  {
  }

  function IdempotentResponse(result: Fields): Fields {
    map k | k in result && k in RESPONSE_FIELDS :: result[k]
  }

  function SanitizeOrchestration(value: Fields): Fields {
    map k | k in value && k in ORCHESTRATION_FIELDS && (value[k].Null? || IsScalar(value[k])) :: value[k]
  }

  /** The public part of the routing state; empty means there is none. */
  function SanitizeRoute(value: Json): Fields {
    if !value.Obj? then map[] else
      var base := map k | k in value.fields && k in ROUTE_FIELDS && IsScalar(value.fields[k]) :: value.fields[k];
      var orchestration := Get(value.fields, "orchestration");
      if !orchestration.Obj? then base else
        var projected := SanitizeOrchestration(orchestration.fields);
        if projected == map[] then base else base["orchestration" := Obj(projected)]
  }

  function SanitizeResult(result: Fields): Fields {
    var route := SanitizeRoute(Get(result, "agent_route"));
    var routed := if route == map[] then result - {"agent_route"} else result["agent_route" := Obj(route)];
    routed - {"final_route_receipt", "_route"}
  }

  /** Version 2 metadata whose attribution agrees with the model it names. */
  predicate ConsistentV2(result: Fields) {
    && Get(result, "channel_result_version") == Int(RESULT_VERSION)
    && var model := Get(result, "model");
       var attribution := Get(result, "attribution_state");
       || (attribution == Str(PROVIDER_ATTESTED) && model.Str? && !Blank(model.text) && model.text != LOCAL_MODEL)
       || (attribution == Str(LOCAL_ENGINE) && model == Str(LOCAL_MODEL))
  }

  predicate KeepsTurns(turns: Json) {
    turns.Int? && 0 <= turns.value <= 1_000_000
  }

  predicate KeepsText(item: Json) {
    item.Str? && Utf8Length(item.text) <= 128
  }

  predicate KeepsFlag(item: Json) {
    item.Bool?
  }

  function Keep(public: Fields, keys: set<string>, ok: Json -> bool): (kept: Fields)
    ensures kept.Keys <= keys
  {
    map k | k in public && k in keys && ok(public[k]) :: public[k]
  }

  /** What survives of a result without consistent version 2 metadata. */
  function LegacyPublic(public: Fields): Fields {
    var reply := Get(public, "reply");
    var base: Fields := map[
      "reply" := if reply.Str? then reply else Str(UNREADABLE_REPLY),
      "model" := Str(LOCAL_MODEL),
      "usage" := Obj(map[])
    ];
    base + Keep(public, {"turns"}, KeepsTurns) + Keep(public, {"orchestration_mode", "outcome"}, KeepsText)
         + Keep(public, {"reviewed", "verified", "machine_verified", "blocked"}, KeepsFlag)
  }

  /** The replay of a stored result: only gateway-minted version 2 attribution survives. */
  function Project(value: Json): Fields {
    var result := if value.Obj? then value.fields else map[];
    var public := IdempotentResponse(SanitizeResult(result));
    if ConsistentV2(result) then
      public["channel_result_version" := Int(RESULT_VERSION)]["attribution_state" := Get(result, "attribution_state")]
    else
      LegacyPublic(public)["channel_result_version" := Int(RESULT_VERSION)]["attribution_state" := Str(LOCAL_ENGINE)]
  }

  /** Version 2 metadata for a sanitised agent result. */
  function Mint(result: Fields): Fields {
    var public := IdempotentResponse(result);
    var model := Get(result, "model");
    if model == Str(LOCAL_MODEL) then
      public["channel_result_version" := Int(RESULT_VERSION)]["attribution_state" := Str(LOCAL_ENGINE)]
    else if model.Str? && !Blank(model.text) && Get(result, "actual_model") == model then
      public["channel_result_version" := Int(RESULT_VERSION)]["attribution_state" := Str(PROVIDER_ATTESTED)]
    else
      public["model" := Str(LOCAL_MODEL)]
            ["channel_result_version" := Int(RESULT_VERSION)]["attribution_state" := Str(LOCAL_ENGINE)]
  }

  /** The result committed for a turn whose provider work may have been lost. */
  function RecoveryNotice(turnIdentity: string, traceId: string): Fields {
    map[
      "reply" := Str(RECOVERY_REPLY),
      "model" := Str(LOCAL_MODEL),
      "channel_result_version" := Int(RESULT_VERSION),
      "attribution_state" := Str(LOCAL_ENGINE),
      "turns" := Int(0),
      "usage" := Obj(map[]),
      "orchestration_mode" := Str("safety_recovery"),
      "verified" := Bool(false),
      "outcome" := Str("provider_result_recovery_required"),
      "blocked" := Bool(true),
      "recovery_id" := Str(turnIdentity),
      "notice_trace_id" := Str(traceId)
    ]
  }

  // ---------------------------------------------------------------------------
  // Fixed points of the projection
  // ---------------------------------------------------------------------------

  predicate ClosedRoute(result: Fields) {
    "agent_route" in result ==>
      && result["agent_route"].Obj?
      && result["agent_route"].fields != map[]
      && SanitizeRoute(result["agent_route"]) == result["agent_route"].fields
  }

  /** Nothing but public fields, a sanitised route and consistent attribution. */
  predicate Replayable(result: Fields) {
    result.Keys <= RESPONSE_FIELDS && ClosedRoute(result) && ConsistentV2(result)
  }

  lemma SanitizeOrchestrationIdempotent(value: Fields)
    ensures SanitizeOrchestration(SanitizeOrchestration(value)) == SanitizeOrchestration(value)
  {
  }

  lemma SanitizeRouteIdempotent(value: Json)
    ensures SanitizeRoute(Obj(SanitizeRoute(value))) == SanitizeRoute(value)
  {
    if value.Obj? {
      var once := SanitizeRoute(value);
      var orchestration := Get(value.fields, "orchestration");
      assert "orchestration" !in ROUTE_FIELDS;
      if orchestration.Obj? {
        SanitizeOrchestrationIdempotent(orchestration.fields);
      }
    }
  }

  /** A sanitised result carries a closed route, and a closed route is left alone. */
  lemma SanitizeClosesRoute(result: Fields)
    ensures ClosedRoute(SanitizeResult(result))
    ensures ClosedRoute(result) ==> SanitizeResult(result) == result - {"final_route_receipt", "_route"}
  {
    var value := Get(result, "agent_route");
    var route := SanitizeRoute(value);
    SanitizeRouteIdempotent(value);
    assert "agent_route" !in {"final_route_receipt", "_route"};
    if ClosedRoute(result) && "agent_route" in result {
      assert result["agent_route"] == Obj(route);
      assert result["agent_route" := Obj(route)] == result;
    }
  }

  lemma ClosedRouteCarries(result: Fields, public: Fields)
    requires ClosedRoute(result)
    requires "agent_route" in public ==> "agent_route" in result && public["agent_route"] == result["agent_route"]
    ensures ClosedRoute(public)
  {
  }

  lemma SanitizeKeepsOthers(result: Fields, key: string)
    requires key !in {"agent_route", "final_route_receipt", "_route"}
    ensures Get(SanitizeResult(result), key) == Get(result, key)
  {
  }

  /** Minting a sanitised result yields a replayable one. */
  lemma MintReplayable(result: Fields)
    ensures Replayable(Mint(SanitizeResult(result)))
  {
    var clean := SanitizeResult(result);
    SanitizeClosesRoute(result);
    ClosedRouteCarries(clean, Mint(clean));
  }

  /** The notice is replayable; it is the engine's own blocked answer, claims no verification and no turn used, and
      tells which turn it stands for and under which trace it was written. */
  lemma NoticeReplayable(turnIdentity: string, traceId: string)
    ensures var notice := RecoveryNotice(turnIdentity, traceId);
            && Replayable(notice)
            && Get(notice, "attribution_state") == Str(LOCAL_ENGINE) && Get(notice, "reply") == Str(RECOVERY_REPLY)
            && Get(notice, "blocked") == Bool(true) && Get(notice, "verified") == Bool(false) && Get(notice, "turns") == Int(0)
            && Get(notice, "recovery_id") == Str(turnIdentity) && Get(notice, "notice_trace_id") == Str(traceId)
  {
  }

  lemma LegacyKeys(public: Fields)
    ensures LegacyPublic(public).Keys <= RESPONSE_FIELDS - {"agent_route"}
    ensures Get(LegacyPublic(public), "model") == Str(LOCAL_MODEL)
  {
    hide Keep;
    var kept := {"turns", "orchestration_mode", "outcome", "reviewed", "verified", "machine_verified", "blocked"};
    assert "model" !in kept;
    assert LegacyPublic(public).Keys <= {"reply", "model", "usage"} + kept;
  }

  lemma LegacyReplayable(public: Fields)
    ensures Replayable(LegacyPublic(public)["channel_result_version" := Int(RESULT_VERSION)]
                                           ["attribution_state" := Str(LOCAL_ENGINE)])
  {
    LegacyKeys(public);
  }

  lemma ConsistentReplayable(result: Fields)
    requires ConsistentV2(result)
    ensures Replayable(Project(Obj(result)))
  {
    var clean := SanitizeResult(result);
    SanitizeClosesRoute(result);
    SanitizeKeepsOthers(result, "model");
    ClosedRouteCarries(clean, Project(Obj(result)));
  }

  /** Whatever was stored, its replay is replayable. */
  lemma ProjectReplayable(value: Json)
    ensures Replayable(Project(value))
  {
    var result := if value.Obj? then value.fields else map[];
    if ConsistentV2(result) {
      ConsistentReplayable(result);
    } else {
      LegacyReplayable(IdempotentResponse(SanitizeResult(result)));
    }
  }

  /** The projection fixes exactly the replayable results. */
  lemma ProjectFixes(result: Fields)
    ensures Project(Obj(result)) == result <==> Replayable(result)
  {
    if Replayable(result) {
      SanitizeClosesRoute(result);
      assert "final_route_receipt" !in RESPONSE_FIELDS && "_route" !in RESPONSE_FIELDS;
      assert SanitizeResult(result) == result;
      assert IdempotentResponse(result) == result;
    } else if Project(Obj(result)) == result {
      ProjectReplayable(Obj(result));
    }
  }

  lemma ProjectIdempotent(value: Json)
    ensures Project(Obj(Project(value))) == Project(value)
  {
    ProjectReplayable(value);
    ProjectFixes(Project(value));
  }

  /** A replay names a provider exactly if the stored result already did, in version 2 metadata for a non-blank model
      other than the local engine, and then it names that model; otherwise the local engine answered. */
  lemma ProjectAttribution(value: Json)
    ensures var replay := Project(value);
            var attested := && value.Obj? && Get(value.fields, "channel_result_version") == Int(2)
                            && Get(value.fields, "attribution_state") == Str("provider_attested")
                            && Get(value.fields, "model").Str? && !Blank(Get(value.fields, "model").text)
                            && Get(value.fields, "model").text != "nachuan-engine";
            && Get(replay, "attribution_state") == Str(if attested then "provider_attested" else "local_engine")
            && Get(replay, "model") == (if attested then Get(value.fields, "model") else Str("nachuan-engine"))
  {
    hide SanitizeResult, IdempotentResponse, LegacyPublic, Blank, IsSpace;
    assert PROVIDER_ATTESTED[0] != LOCAL_ENGINE[0];
    var result := if value.Obj? then value.fields else map[];
    PublicGet(result, "model");
    LegacyPublicIsLocal(IdempotentResponse(SanitizeResult(result)));
  }

  /** Minting names a provider exactly for a non-blank model, other than the local engine,
      that the agent contract confirmed as the actual one. */
  lemma MintAttribution(result: Fields)
    ensures Get(Mint(result), "attribution_state") == Str(PROVIDER_ATTESTED) <==>
            var model := Get(result, "model");
            model.Str? && !Blank(model.text) && model.text != LOCAL_MODEL && Get(result, "actual_model") == model
  {
    assert PROVIDER_ATTESTED[0] != LOCAL_ENGINE[0];
  }

  // ---------------------------------------------------------------------------
  // What survives
  // ---------------------------------------------------------------------------

  /** The route keeps its public scalar fields, and of its orchestration the public scalar or null ones. */
  lemma SanitizeRouteKeeps(fields: Fields, key: string)
    ensures var route := SanitizeRoute(Obj(fields));
            var orchestration := Get(fields, "orchestration");
            && (key != "orchestration" ==>
                  && (key in route <==> key in fields && key in ROUTE_FIELDS && IsScalar(fields[key]))
                  && (key in route ==> route[key] == fields[key]))
            && ("orchestration" in route ==> route["orchestration"].Obj?)
            && (orchestration.Obj? ==>
                  var kept := if "orchestration" in route then route["orchestration"].fields else map[];
                  && (key in kept <==> key in orchestration.fields && key in ORCHESTRATION_FIELDS &&
                                       (orchestration.fields[key].Null? || IsScalar(orchestration.fields[key])))
                  && (key in kept ==> kept[key] == orchestration.fields[key]))
            && (!orchestration.Obj? ==> "orchestration" !in route)
  {
    assert "orchestration" !in ROUTE_FIELDS;
  }

  /** Sanitising takes the two private fields and what is not public of the route, and nothing else. */
  lemma SanitizeTakes(result: Fields, key: string)
    ensures var clean := SanitizeResult(result);
            && (key !in {"agent_route", "final_route_receipt", "_route"} ==>
                  (key in clean <==> key in result) && Get(clean, key) == Get(result, key))
            && "final_route_receipt" !in clean && "_route" !in clean
            && ("agent_route" in clean <==> SanitizeRoute(Get(result, "agent_route")) != map[])
            && ("agent_route" in clean ==> clean["agent_route"] == Obj(SanitizeRoute(Get(result, "agent_route"))))
  {
    assert "agent_route" !in {"final_route_receipt", "_route"};
  }

  /** With consistent version 2 metadata every public field but the route is replayed as it was stored. */
  lemma ConsistentSurvives(result: Fields, key: string)
    requires ConsistentV2(result) && key != "agent_route"
    ensures var replay := Project(Obj(result));
            (key in replay <==> key in result && key in RESPONSE_FIELDS) && (key in replay ==> replay[key] == result[key])
  {
    SanitizeTakes(result, key);
    assert {"final_route_receipt", "_route"} !! RESPONSE_FIELDS;
    hide SanitizeResult;
  }

  lemma PublicGet(result: Fields, key: string)
    requires key in RESPONSE_FIELDS && key != "agent_route"
    ensures var public := IdempotentResponse(SanitizeResult(result));
            (key in public <==> key in result) && Get(public, key) == Get(result, key)
  {
    SanitizeTakes(result, key);
    assert {"final_route_receipt", "_route"} !! RESPONSE_FIELDS;
    hide SanitizeResult;
  }

  lemma KeptIs(public: Fields, keys: set<string>, ok: Json -> bool, key: string)
    ensures var kept := Keep(public, keys, ok);
            (key in kept <==> key in public && key in keys && ok(public[key])) && (key in kept ==> kept[key] == public[key])
  {
  }

  /** Whether a result without consistent version 2 metadata keeps a field besides its reply. */
  predicate LegacyKeeps(key: string, item: Json) {
    || (key == "turns" && item.Int? && 0 <= item.value <= 1_000_000)
    || (key in {"orchestration_mode", "outcome"} && item.Str? && Utf8Length(item.text) <= 128)
    || (key in {"reviewed", "verified", "machine_verified", "blocked"} && item.Bool?)
  }

  lemma LegacyPublicKeeps(public: Fields, key: string)
    requires key !in {"reply", "model", "usage"}
    ensures key in LegacyPublic(public) <==> LegacyKeeps(key, Get(public, key))
    ensures key in LegacyPublic(public) ==> LegacyPublic(public)[key] == Get(public, key)
  {
    hide Keep;
    var turns, texts, flags := {"turns"}, {"orchestration_mode", "outcome"}, {"reviewed", "verified", "machine_verified", "blocked"};
    KeptIs(public, turns, KeepsTurns, key);
    KeptIs(public, texts, KeepsText, key);
    KeptIs(public, flags, KeepsFlag, key);
    assert key in LegacyPublic(public) <==>
      key in Keep(public, turns, KeepsTurns) || key in Keep(public, texts, KeepsText) || key in Keep(public, flags, KeepsFlag);
    hide Utf8Length;
  }

  lemma LegacyPublicIsLocal(public: Fields)
    ensures var legacy := LegacyPublic(public);
            && Get(legacy, "reply") == (if Get(public, "reply").Str? then Get(public, "reply") else Str(UNREADABLE_REPLY))
            && Get(legacy, "model") == Str(LOCAL_MODEL) && Get(legacy, "usage") == Obj(map[])
  {
    hide Keep;
    var kept := {"turns"} + {"orchestration_mode", "outcome"} + {"reviewed", "verified", "machine_verified", "blocked"};
    assert {"reply", "model", "usage"} !! kept;
  }

  /** Without it, bounded turns, short mode and outcome texts and the four flags are, and nothing else. */
  lemma LegacySurvives(result: Fields, key: string)
    requires !ConsistentV2(result) && key !in {"reply", "model", "usage", "channel_result_version", "attribution_state"}
    ensures var replay := Project(Obj(result));
            (key in replay <==> LegacyKeeps(key, Get(result, key))) && (key in replay ==> replay[key] == Get(result, key))
  {
    hide SanitizeResult, IdempotentResponse, LegacyPublic, Utf8Length, ConsistentV2;
    LegacyPublicKeeps(IdempotentResponse(SanitizeResult(result)), key);
    if key in RESPONSE_FIELDS && key != "agent_route" { PublicGet(result, key); }
  }

  /** The reply is if it is a text, and is replaced by the notice otherwise. The replay is the local engine's, used
      nothing, and is marked as version 2 from now on. */
  lemma LegacyIsLocal(result: Fields)
    requires !ConsistentV2(result)
    ensures var replay := Project(Obj(result));
            && Get(replay, "reply") == (if Get(result, "reply").Str? then Get(result, "reply") else Str(UNREADABLE_REPLY))
            && Get(replay, "model") == Str(LOCAL_MODEL) && Get(replay, "usage") == Obj(map[])
            && Get(replay, "channel_result_version") == Int(RESULT_VERSION)
            && Get(replay, "attribution_state") == Str(LOCAL_ENGINE)
  {
    hide SanitizeResult, IdempotentResponse, LegacyPublic, ConsistentV2;
    PublicGet(result, "reply");
    LegacyPublicIsLocal(IdempotentResponse(SanitizeResult(result)));
  }

  /** What is no object is replayed as an unreadable reply of the local engine. */
  lemma NothingStored(value: Json)
    requires !value.Obj?
    ensures Project(value) == map[
      "reply" := Str(UNREADABLE_REPLY), "model" := Str(LOCAL_MODEL), "usage" := Obj(map[]),
      "channel_result_version" := Int(RESULT_VERSION), "attribution_state" := Str(LOCAL_ENGINE)]
  {
    var none: Fields := map[];
    assert Project(value) == Project(Obj(none));
    hide LegacyPublic;
    assert IdempotentResponse(SanitizeResult(none)) == none;
    NothingKept();
  }

  lemma NothingKept()
    ensures LegacyPublic(map[]) == map["reply" := Str(UNREADABLE_REPLY), "model" := Str(LOCAL_MODEL), "usage" := Obj(map[])]
  {
  }

  /** A reply that is a text is replayed whatever came with it. */
  lemma ReplySurvives(result: Fields)
    requires Get(result, "reply").Str?
    ensures Get(Project(Obj(result)), "reply") == Get(result, "reply")
  {
    hide Project;
    if ConsistentV2(result) {
      ConsistentSurvives(result, "reply");
    } else {
      LegacyIsLocal(result);
    }
  }

  /** Minting keeps every public field but the author's, and the author where it is the local engine or confirmed. */
  lemma MintSurvives(result: Fields, key: string)
    requires key !in {"model", "channel_result_version", "attribution_state"}
    ensures var minted := Mint(result);
            && (key in minted <==> key in result && key in RESPONSE_FIELDS)
            && (key in minted ==> minted[key] == result[key])
            && Get(minted, "channel_result_version") == Int(RESULT_VERSION)
            && Get(minted, "model") ==
               (if Get(minted, "attribution_state") == Str(PROVIDER_ATTESTED) then Get(result, "model") else Str(LOCAL_MODEL))
  {
    assert PROVIDER_ATTESTED[0] != LOCAL_ENGINE[0];
  }
}
