/** A delivery attempt's report rebuilt from its fixed shape, and what survives the rebuilding. */
module ImageAttempts {
  import opened Wrappers

  const MAX_EVIDENCE_ITEMS: nat := 200
  const MODEL_MAX: nat := 200
  const MAX_SAFE: int := 0x1F_FFFF_FFFF_FFFF

  /** Whatever a caller sent. */
  datatype Json = Undefined | Null | Bool(b: bool) | Number(n: int) | Text(s: string) | List(items: seq<Json>) | Object(fields: map<string, Json>)

  function Get(v: Json, field: string): Json {
    if v.Object? && field in v.fields then v.fields[field] else Undefined
  }

  /** How the engine reads a date's text as a time, and how it writes one. */
  datatype Clock = Clock(parse: string -> Option<int>, show: int -> string)

  /** A time it read is written short enough to be read again, as that time. */
  ghost predicate Lawful(c: Clock) {
    forall s :: c.parse(s).Some? ==> |c.show(c.parse(s).value)| <= 40 && c.parse(c.show(c.parse(s).value)) == c.parse(s)
  }

  const EPOCH := "1970-01-01T00:00:00.000Z"

  /** There is such a clock: one that reads the epoch, as a date or as a bare zero, and writes it as a date. */
  lemma SomeClockIsLawful() returns (c: Clock)
    ensures Lawful(c) && c.parse(EPOCH) == Some(0) && c.parse("0") == Some(0) && c.show(0) == EPOCH
  {
    c := Clock((s: string) => if s == EPOCH || s == "0" then Some(0) else None, (t: int) => EPOCH);
  }

  function Iso(c: Clock, v: Json): Option<string> {
    if !v.Text? || |v.s| > 40 then None
    else match c.parse(v.s)
      case None => None
      case Some(t) => Some(c.show(t))
  }

  predicate IsNat(v: Json) {
    v.Number? && 0 <= v.n <= MAX_SAFE
  }

  predicate IsPos(v: Json) {
    IsNat(v) && v.n > 0
  }

  predicate IsLetter(c: char) {
    'a' <= c <= 'z' || 'A' <= c <= 'Z'
  }

  predicate IsDigit(c: char) {
    '0' <= c <= '9'
  }

  predicate IsSha(s: string) {
    |s| == 64 && forall i :: 0 <= i < |s| ==> IsDigit(s[i]) || 'a' <= s[i] <= 'f'
  }

  predicate IsAttemptId(s: string) {
    1 <= |s| <= 64 && forall i :: 0 <= i < |s| ==> IsLetter(s[i]) || IsDigit(s[i]) || s[i] == '-'
  }

  predicate IsErrorClass(s: string) {
    && 1 <= |s| <= 64 && !IsDigit(s[0])
    && forall i :: 0 <= i < |s| ==> IsLetter(s[i]) || IsDigit(s[i]) || s[i] == '_' || s[i] == '$'
  }

  datatype Item = Item(index: nat, sha256: string, declaredBytes: Option<nat>, readBytes: Option<nat>, result: string, reason: Option<string>)
  datatype Provider = Http(status: int, at: string) | Timeout(at: string) | TransportError(errorClass: string, at: string)
  datatype Budget = Budget(maxImages: nat, maxBytes: nat, step: nat)
  datatype Report = Report(attemptId: string, budget: Budget, windowStart: nat, model: string, vision: bool, preparedAt: string,
                           items: seq<Item>, truncated: nat, provider: Option<Provider>)

  const RESULTS := ["included_in_request", "omitted", "load_failed"]

  /** Why an item has the result it has; an included one gives no reason. */
  function Reasons(result: string): seq<string> {
    if result == RESULTS[1] then ["before_window", "over_budget", "non_vision_model"]
    else if result == RESULTS[2] then ["missing", "read_error", "size_mismatch"]
    else []
  }

  function Size(v: Json): Option<nat> {
    if IsNat(v) then Some(v.n) else None
  }

  predicate IsSize(v: Json) {
    v.Null? || IsNat(v)
  }

  function CleanItem(v: Json): Option<Item> {
    var index, sha, result, reason := Get(v, "index"), Get(v, "sha256"), Get(v, "result"), Get(v, "reason");
    if !IsNat(index) || !sha.Text? || !IsSha(sha.s) || !result.Text? || result.s !in RESULTS then None
    else if !IsSize(Get(v, "declaredBytes")) || !IsSize(Get(v, "readBytes")) then None
    else
      var reasons := Reasons(result.s);
      if (if reasons != [] then !reason.Text? || reason.s !in reasons else !reason.Undefined?) then None
      else Some(Item(index.n, sha.s, Size(Get(v, "declaredBytes")), Size(Get(v, "readBytes")), result.s,
                     if reasons != [] then Some(reason.s) else None))
  }

  function CleanItems(vs: seq<Json>): Option<seq<Item>> {
    if vs == [] then Some([])
    else
      match CleanItem(vs[0])
      case None => None
      case Some(it) =>
        var rest := CleanItems(vs[1..]);
        if rest.None? then None else Some([it] + rest.value)
  }

  function CleanProvider(c: Clock, v: Json): Option<Provider> {
    var at, outcome, status, errorClass := Iso(c, Get(v, "at")), Get(v, "outcome"), Get(v, "status"), Get(v, "errorClass");
    if at.None? then None
    else if outcome == Text("http") && status.Number? && 100 <= status.n <= 599 then Some(Http(status.n, at.value))
    else if outcome == Text("timeout") then Some(Timeout(at.value))
    else if outcome == Text("transport_error") then
      Some(TransportError(if errorClass.Text? && IsErrorClass(errorClass.s) then errorClass.s else "Error", at.value))
    else None
  }

  datatype Capped = Capped(items: seq<Item>, truncated: nat)

  /** The newest items, and how many older ones were dropped, on top of those dropped before. */
  function CapItems(items: seq<Item>, already: nat): (c: Capped)
    ensures |c.items| <= MAX_EVIDENCE_ITEMS
  {
    var over := if |items| > MAX_EVIDENCE_ITEMS then |items| - MAX_EVIDENCE_ITEMS else 0;
    Capped(items[over..], over + already)
  }

  function CleanBudget(b: Json): Option<Budget> {
    if IsPos(Get(b, "maxImages")) && IsPos(Get(b, "maxBytes")) && IsPos(Get(b, "step"))
    then Some(Budget(Get(b, "maxImages").n, Get(b, "maxBytes").n, Get(b, "step").n)) else None
  }

  function Dropped(v: Json): nat {
    if IsNat(v) then v.n else 0
  }

  function Clean(c: Clock, v: Json): Option<Report> {
    var id, budget, at := Get(v, "attemptId"), CleanBudget(Get(v, "budget")), Iso(c, Get(v, "preparedAt"));
    var start, model, vision, items := Get(v, "windowStart"), Get(v, "model"), Get(v, "vision"), Get(v, "items");
    if !id.Text? || !IsAttemptId(id.s) || budget.None? then None
    else if !IsNat(start) || !model.Text? || !vision.Bool? || at.None? || !items.List? then None
    else
      var cleaned := CleanItems(items.items);
      var provider := if Get(v, "provider").Undefined? then None else CleanProvider(c, Get(v, "provider"));
      if cleaned.None? || (!Get(v, "provider").Undefined? && provider.None?) then None
      else
        var capped := CapItems(cleaned.value, Dropped(Get(v, "truncated")));
        Some(Report(id.s, budget.value, start.n, if |model.s| > MODEL_MAX then model.s[..MODEL_MAX] else model.s, vision.b, at.value,
                    capped.items, capped.truncated, provider))
  }

  // ----- Capping conserves -----

  /** Kept and dropped together are what was reported and dropped before, and what is kept is the newest. */
  lemma CapConserves(items: seq<Item>, already: nat)
    ensures var c := CapItems(items, already);
            && |c.items| + c.truncated == |items| + already
            && (exists dropped: seq<Item> :: items == dropped + c.items)
            && (c.truncated > already ==> |c.items| == MAX_EVIDENCE_ITEMS)
  {
    var c := CapItems(items, already);
    assert items == items[..|items| - |c.items|] + c.items;
  }

  /** Capping twice is capping once. */
  lemma CapTwice(items: seq<Item>, already: nat)
    ensures var c := CapItems(items, already); CapItems(c.items, c.truncated) == c
  {
    var c := CapItems(items, already);
    assert c.items[0..] == c.items;
  }

  // ----- What is kept, as it is sent again -----

  function SizeJson(n: Option<nat>): Json {
    if n.Some? then Number(n.value) else Null
  }

  function ItemJson(it: Item): Json {
    var base := map["index" := Number(it.index), "sha256" := Text(it.sha256), "declaredBytes" := SizeJson(it.declaredBytes),
                    "readBytes" := SizeJson(it.readBytes), "result" := Text(it.result)];
    Object(if it.reason.Some? then base["reason" := Text(it.reason.value)] else base)
  }

  function ProviderJson(p: Provider): Json {
    match p
    case Http(status, at) => Object(map["outcome" := Text("http"), "status" := Number(status), "at" := Text(at)])
    case Timeout(at) => Object(map["outcome" := Text("timeout"), "at" := Text(at)])
    case TransportError(errorClass, at) =>
      Object(map["outcome" := Text("transport_error"), "errorClass" := Text(errorClass), "at" := Text(at)])
  }

  function BudgetJson(b: Budget): Json {
    Object(map["maxImages" := Number(b.maxImages), "maxBytes" := Number(b.maxBytes), "step" := Number(b.step)])
  }

  function ItemsJson(items: seq<Item>): (js: seq<Json>)
    ensures |js| == |items|
  {
    seq(|items|, i requires 0 <= i < |items| => ItemJson(items[i]))
  }

  function ReportJson(r: Report): Json {
    var base := map["attemptId" := Text(r.attemptId), "budget" := BudgetJson(r.budget), "windowStart" := Number(r.windowStart),
                    "model" := Text(r.model), "vision" := Bool(r.vision), "preparedAt" := Text(r.preparedAt), "items" := List(ItemsJson(r.items))];
    var more := if r.truncated > 0 then base["truncated" := Number(r.truncated)] else base;
    Object(if r.provider.Some? then more["provider" := ProviderJson(r.provider.value)] else more)
  }

  // ----- Cleaning again -----

  predicate CleanSize(n: Option<nat>) {
    n.Some? ==> n.value <= MAX_SAFE
  }

  predicate ItemOk(it: Item) {
    && it.index <= MAX_SAFE && IsSha(it.sha256) && it.result in RESULTS && CleanSize(it.declaredBytes) && CleanSize(it.readBytes)
    && (if Reasons(it.result) != [] then it.reason.Some? && it.reason.value in Reasons(it.result) else it.reason.None?)
  }

  lemma CleanItemOk(v: Json)
    requires CleanItem(v).Some?
    ensures ItemOk(CleanItem(v).value)
  {
  }

  /** The field names are apart. */
  lemma ItemFields(it: Item)
    ensures var v := ItemJson(it);
            && Get(v, "index") == Number(it.index) && Get(v, "sha256") == Text(it.sha256)
            && Get(v, "declaredBytes") == SizeJson(it.declaredBytes) && Get(v, "readBytes") == SizeJson(it.readBytes)
            && Get(v, "result") == Text(it.result) && Get(v, "reason") == if it.reason.Some? then Text(it.reason.value) else Undefined
  {
    assert |"index"| == 5 && |"sha256"| == 6 && |"declaredBytes"| == 13 && |"readBytes"| == 9;
    assert "result"[2] == 's' && "reason"[2] == 'a' && "sha256"[0] == 's' && "result"[0] == 'r' && "reason"[0] == 'r';
  }

  lemma CleanItemAgain(it: Item)
    requires ItemOk(it)
    ensures CleanItem(ItemJson(it)) == Some(it)
  {
    ItemFields(it);
  }

  lemma {:induction false} CleanItemsAre(vs: seq<Json>)
    requires CleanItems(vs).Some?
    ensures |CleanItems(vs).value| == |vs| && forall i :: 0 <= i < |vs| ==> ItemOk(CleanItems(vs).value[i])
  {
    if vs != [] {
      CleanItemsAre(vs[1..]);
      CleanItemOk(vs[0]);
    }
  }

  lemma CleanItemsStep(vs: seq<Json>, it: Item, rest: seq<Item>)
    requires vs != [] && CleanItem(vs[0]) == Some(it) && CleanItems(vs[1..]) == Some(rest)
    ensures CleanItems(vs) == Some([it] + rest)
  {
  }

  lemma {:induction false} CleanItemsAgain(items: seq<Item>)
    requires forall i :: 0 <= i < |items| ==> ItemOk(items[i])
    ensures CleanItems(ItemsJson(items)) == Some(items)
  {
    if items != [] {
      var vs := ItemsJson(items);
      CleanItemAgain(items[0]);
      CleanItemsAgain(items[1..]);
      assert vs[1..] == ItemsJson(items[1..]) && vs[0] == ItemJson(items[0]);
      CleanItemsStep(vs, items[0], items[1..]);
      assert items == [items[0]] + items[1..];
    }
  }

  predicate AtOk(c: Clock, at: string) {
    Iso(c, Text(at)) == Some(at)
  }

  lemma IsoAgain(c: Clock, v: Json)
    requires Lawful(c) && Iso(c, v).Some?
    ensures AtOk(c, Iso(c, v).value)
  {
  }

  predicate ProviderOk(c: Clock, p: Provider) {
    AtOk(c, p.at) && (p.Http? ==> 100 <= p.status <= 599) && (p.TransportError? ==> IsErrorClass(p.errorClass))
  }

  lemma CleanProviderOk(c: Clock, v: Json)
    requires Lawful(c) && CleanProvider(c, v).Some?
    ensures ProviderOk(c, CleanProvider(c, v).value)
  {
    IsoAgain(c, Get(v, "at"));
    assert IsErrorClass("Error");
  }

  lemma ProviderFields(p: Provider)
    ensures var v := ProviderJson(p);
            && Get(v, "at") == Text(p.at)
            && Get(v, "outcome") == Text(if p.Http? then "http" else if p.Timeout? then "timeout" else "transport_error")
            && (p.Http? ==> Get(v, "status") == Number(p.status))
            && (p.TransportError? ==> Get(v, "errorClass") == Text(p.errorClass))
  {
    assert |"at"| == 2 && |"outcome"| == 7 && |"status"| == 6 && |"errorClass"| == 10;
  }

  lemma CleanProviderAgain(c: Clock, p: Provider)
    requires ProviderOk(c, p)
    ensures CleanProvider(c, ProviderJson(p)) == Some(p)
  {
    ProviderFields(p);
    assert |"http"| == 4 && |"timeout"| == 7 && |"transport_error"| == 15;
  }

  predicate ReportOk(c: Clock, r: Report) {
    && IsAttemptId(r.attemptId) && 0 < r.budget.maxImages <= MAX_SAFE && 0 < r.budget.maxBytes <= MAX_SAFE && 0 < r.budget.step <= MAX_SAFE
    && r.windowStart <= MAX_SAFE && |r.model| <= MODEL_MAX && AtOk(c, r.preparedAt)
    && |r.items| <= MAX_EVIDENCE_ITEMS && (forall i :: 0 <= i < |r.items| ==> ItemOk(r.items[i]))
    && (r.provider.Some? ==> ProviderOk(c, r.provider.value))
  }

  lemma CleanIsOk(c: Clock, v: Json)
    requires Lawful(c) && Clean(c, v).Some?
    ensures ReportOk(c, Clean(c, v).value)
  {
    IsoAgain(c, Get(v, "preparedAt"));
    CleanItemsAre(Get(v, "items").items);
    if !Get(v, "provider").Undefined? { CleanProviderOk(c, Get(v, "provider")); }
  }

  lemma BudgetAgain(b: Budget)
    requires 0 < b.maxImages <= MAX_SAFE && 0 < b.maxBytes <= MAX_SAFE && 0 < b.step <= MAX_SAFE
    ensures CleanBudget(BudgetJson(b)) == Some(b)
  {
    assert |"maxImages"| == 9 && |"maxBytes"| == 8 && |"step"| == 4;
  }

  lemma ReportFields(r: Report)
    ensures var v := ReportJson(r);
            && Get(v, "attemptId") == Text(r.attemptId) && Get(v, "budget") == BudgetJson(r.budget)
            && Get(v, "windowStart") == Number(r.windowStart) && Get(v, "model") == Text(r.model) && Get(v, "vision") == Bool(r.vision)
            && Get(v, "preparedAt") == Text(r.preparedAt) && Get(v, "items") == List(ItemsJson(r.items))
            && Get(v, "truncated") == (if r.truncated > 0 then Number(r.truncated) else Undefined)
            && Get(v, "provider") == (if r.provider.Some? then ProviderJson(r.provider.value) else Undefined)
  {
    assert |"attemptId"| == 9 && |"budget"| == 6 && |"windowStart"| == 11 && |"model"| == 5 && |"vision"| == 6;
    assert |"preparedAt"| == 10 && |"items"| == 5 && |"truncated"| == 9 && |"provider"| == 8;
    assert "attemptId"[0] == 'a' && "truncated"[0] == 't' && "budget"[0] == 'b' && "vision"[0] == 'v' && "model"[0] == 'm' && "items"[0] == 'i';
  }

  /** The value's parts read as the report's. */
  predicate Spells(c: Clock, v: Json, r: Report, items: seq<Json>) {
    && Get(v, "attemptId") == Text(r.attemptId) && CleanBudget(Get(v, "budget")) == Some(r.budget)
    && Get(v, "windowStart") == Number(r.windowStart) && Get(v, "model") == Text(r.model) && Get(v, "vision") == Bool(r.vision)
    && Iso(c, Get(v, "preparedAt")) == Some(r.preparedAt) && Get(v, "items") == List(items) && CleanItems(items) == Some(r.items)
    && if r.provider.Some? then !Get(v, "provider").Undefined? && CleanProvider(c, Get(v, "provider")) == r.provider else Get(v, "provider").Undefined?
  }

  lemma CleanCapped(c: Clock, v: Json, r: Report, items: seq<Json>)
    requires Spells(c, v, r, items) && IsAttemptId(r.attemptId) && r.windowStart <= MAX_SAFE && |r.model| <= MODEL_MAX
    ensures var capped := CapItems(r.items, Dropped(Get(v, "truncated")));
            Clean(c, v) == Some(r.(items := capped.items, truncated := capped.truncated))
  {
  }

  lemma CleanFrom(c: Clock, v: Json, r: Report, items: seq<Json>)
    requires Spells(c, v, r, items) && IsAttemptId(r.attemptId)
    requires r.windowStart <= MAX_SAFE && |r.model| <= MODEL_MAX && |r.items| <= MAX_EVIDENCE_ITEMS
    ensures Clean(c, v) == Some(r.(truncated := Dropped(Get(v, "truncated"))))
  {
    assert r.items[0..] == r.items;
    CleanCapped(c, v, r, items);
  }

  lemma ReportSpells(c: Clock, r: Report)
    requires AtOk(c, r.preparedAt) && CleanBudget(BudgetJson(r.budget)) == Some(r.budget) && CleanItems(ItemsJson(r.items)) == Some(r.items)
    requires r.provider.Some? ==> CleanProvider(c, ProviderJson(r.provider.value)) == r.provider
    ensures Spells(c, ReportJson(r), r, ItemsJson(r.items))
    ensures Dropped(Get(ReportJson(r), "truncated")) == if r.truncated <= MAX_SAFE then r.truncated else 0
  {
    ReportFields(r);
  }

  lemma CleanAgain(c: Clock, r: Report)
    requires ReportOk(c, r)
    ensures Clean(c, ReportJson(r)) == Some(r.(truncated := if r.truncated <= MAX_SAFE then r.truncated else 0))
  {
    BudgetAgain(r.budget);
    CleanItemsAgain(r.items);
    if r.provider.Some? { CleanProviderAgain(c, r.provider.value); }
    ReportSpells(c, r);
    CleanFrom(c, ReportJson(r), r, ItemsJson(r.items));
  }

  /**
   * Cleaning is idempotent exactly while the number of dropped items is one the source's numbers hold: past that the count
   * is read back as none.
   */
  lemma CleanAgainExactlyWhen(c: Clock, v: Json)
    requires Lawful(c) && Clean(c, v).Some?
    ensures var r := Clean(c, v).value; Clean(c, ReportJson(r)) == Some(r) <==> r.truncated <= MAX_SAFE
  {
    CleanIsOk(c, v);
    CleanAgain(c, Clean(c, v).value);
  }

  /** A report kept without fault but for its number of items: one more than is kept, and as many dropped as can be counted. */
  function Overfull(at: string): Report {
    Report("a", Budget(1, 1, 1), 0, "", true, at, seq(MAX_EVIDENCE_ITEMS + 1, i => Item(0, seq(64, j => '0'), None, None, RESULTS[0], None)),
           MAX_SAFE, None)
  }

  /** What is sent cleans to it with its newest items and one more dropped than can be counted. */
  lemma OverfullCleans(c: Clock, at: string)
    requires AtOk(c, at)
    ensures Clean(c, ReportJson(Overfull(at))).Some?
    ensures var r := Clean(c, ReportJson(Overfull(at))).value;
            r == Overfull(at).(items := Overfull(at).items[1..], truncated := MAX_SAFE + 1)
  {
    var r := Overfull(at);
    forall i | 0 <= i < |r.items| ensures ItemOk(r.items[i]) {
    }
    CleanItemsAgain(r.items);
    BudgetAgain(r.budget);
    ReportSpells(c, r);
    CleanCapped(c, ReportJson(r), r, ItemsJson(r.items));
  }

  /** Sent again as it was kept, its count is read as none: cleaning is not idempotent on it. */
  lemma CountCanBeLost(c: Clock, at: string)
    requires Lawful(c) && AtOk(c, at)
    ensures Clean(c, ReportJson(Overfull(at))).Some?
    ensures var r := Clean(c, ReportJson(Overfull(at))).value;
            r.truncated == MAX_SAFE + 1 && Clean(c, ReportJson(r)) == Some(r.(truncated := 0))
  {
    OverfullCleans(c, at);
    CleanIsOk(c, ReportJson(Overfull(at)));
    CleanAgain(c, Clean(c, ReportJson(Overfull(at))).value);
  }

  /** And such a clock and such a time there are. */
  lemma SomeCountIsLost()
    ensures exists c: Clock, v: Json ::
      Lawful(c) && Clean(c, v).Some? && Clean(c, ReportJson(Clean(c, v).value)).Some?
      && Clean(c, ReportJson(Clean(c, v).value)) != Clean(c, v)
  {
    var c := SomeClockIsLawful();
    CountCanBeLost(c, EPOCH);
    var v := ReportJson(Overfull(EPOCH));
    assert Clean(c, ReportJson(Clean(c, v).value)).value.truncated == 0;
  }

  /** The report of an attempt begun is the report of it ended, without how it ended. */
  lemma CleanBeforeTheEnd(c: Clock, fields: map<string, Json>)
    requires Clean(c, Object(fields)).Some?
    ensures Clean(c, Object(fields - {"provider"})) == Some(Clean(c, Object(fields)).value.(provider := None))
  {
    var v, w := Object(fields), Object(fields - {"provider"});
    assert |"attemptId"| == 9 && |"budget"| == 6 && |"windowStart"| == 11 && |"model"| == 5 && |"vision"| == 6;
    assert |"preparedAt"| == 10 && |"items"| == 5 && |"truncated"| == 9 && |"provider"| == 8;
    assert forall name :: name != "provider" ==> Get(w, name) == Get(v, name);
    assert Get(w, "provider").Undefined?;
  }
}
