// What a report is read as, field by field: cleaning answers it exactly when what was sent spells one.
module ImageShapes {
  import opened Wrappers
  import opened ImageAttempts

  /** A whole number from 0 that the source's numbers hold. */
  predicate Says(v: Json, n: nat) {
    v == Number(n) && n <= 0x1F_FFFF_FFFF_FFFF
  }

  predicate SaysSize(v: Json, n: Option<nat>) {
    if n.None? then v == Null else Says(v, n.value)
  }

  predicate IsHex(s: string) {
    |s| == 64 && forall i :: 0 <= i < |s| ==> s[i] in "0123456789abcdef"
  }

  /** The reason goes with the result: none for one included, and one of its own for the others. */
  predicate Goes(result: string, reason: Option<string>) {
    || (result == "included_in_request" && reason.None?)
    || (result == "omitted" && reason.Some? && (reason.value == "before_window" || reason.value == "over_budget" || reason.value == "non_vision_model"))
    || (result == "load_failed" && reason.Some? && (reason.value == "missing" || reason.value == "read_error" || reason.value == "size_mismatch"))
  }

  predicate SaysItem(v: Json, it: Item) {
    && Says(Get(v, "index"), it.index) && Get(v, "sha256") == Text(it.sha256) && IsHex(it.sha256)
    && SaysSize(Get(v, "declaredBytes"), it.declaredBytes) && SaysSize(Get(v, "readBytes"), it.readBytes)
    && Get(v, "result") == Text(it.result) && Goes(it.result, it.reason)
    && Get(v, "reason") == if it.reason.Some? then Text(it.reason.value) else Undefined
  }

  lemma HexIsSha(s: string)
    ensures IsHex(s) <==> IsSha(s)
  {
    assert forall c :: c in "0123456789abcdef" <==> IsDigit(c) || 'a' <= c <= 'f' by {
      forall c: char ensures c in "0123456789abcdef" <==> IsDigit(c) || 'a' <= c <= 'f' { HexChar(c); }
    }
  }

  lemma HexChar(c: char)
    ensures c in "0123456789abcdef" <==> IsDigit(c) || 'a' <= c <= 'f'
  {
    var hex := "0123456789abcdef";
    assert |hex| == 16;
    if IsDigit(c) { assert hex[(c - '0') as int] == c; }
    if 'a' <= c <= 'f' { assert hex[10 + (c - 'a') as int] == c; }
  }

  lemma ReasonsAre(result: string)
    ensures result in RESULTS <==> result == "included_in_request" || result == "omitted" || result == "load_failed"
    ensures RESULTS[0] == "included_in_request" && RESULTS[1] == "omitted" && RESULTS[2] == "load_failed"
    ensures RESULTS[0] != RESULTS[1] && RESULTS[0] != RESULTS[2] && RESULTS[1] != RESULTS[2]
  {
    assert |"included_in_request"| == 19 && |"omitted"| == 7 && |"load_failed"| == 11;
  }

  lemma ItemExactlyWhen(v: Json, it: Item)
    ensures CleanItem(v) == Some(it) <==> SaysItem(v, it)
  {
    HexIsSha(it.sha256);
    if Get(v, "sha256").Text? { HexIsSha(Get(v, "sha256").s); }
    ReasonsAre(it.result);
    if Get(v, "result").Text? { ReasonsAre(Get(v, "result").s); }
  }

  predicate SaysItems(vs: seq<Json>, items: seq<Item>) {
    |vs| == |items| && forall i :: 0 <= i < |vs| ==> SaysItem(vs[i], items[i])
  }

  lemma {:induction false} ItemsExactlyWhen(vs: seq<Json>, items: seq<Item>)
    ensures CleanItems(vs) == Some(items) <==> SaysItems(vs, items)
  {
    if vs != [] {
      if CleanItem(vs[0]).Some? { ItemExactlyWhen(vs[0], CleanItem(vs[0]).value); }
      if items != [] {
        ItemExactlyWhen(vs[0], items[0]);
        ItemsExactlyWhen(vs[1..], items[1..]);
        assert SaysItems(vs, items) <==> SaysItem(vs[0], items[0]) && SaysItems(vs[1..], items[1..]);
        assert items == [items[0]] + items[1..];
      }
    }
  }

  /** A text of at most forty characters that the engine reads as a time, which it writes so. */
  predicate SaysTime(c: Clock, v: Json, at: string) {
    v.Text? && |v.s| <= 40 && c.parse(v.s).Some? && c.show(c.parse(v.s).value) == at
  }

  predicate SaysProvider(c: Clock, v: Json, p: Provider) {
    && SaysTime(c, Get(v, "at"), p.at)
    && match p
       case Http(status, _) => Get(v, "outcome") == Text("http") && Get(v, "status") == Number(status) && 100 <= status <= 599
       case Timeout(_) => Get(v, "outcome") == Text("timeout")
       case TransportError(errorClass, _) =>
         && Get(v, "outcome") == Text("transport_error")
         && errorClass == if Get(v, "errorClass").Text? && IsErrorClass(Get(v, "errorClass").s) then Get(v, "errorClass").s else "Error"
  }

  lemma ProviderExactlyWhen(c: Clock, v: Json, p: Provider)
    ensures CleanProvider(c, v) == Some(p) <==> SaysProvider(c, v, p)
  {
    assert |"http"| == 4 && |"timeout"| == 7 && |"transport_error"| == 15;
  }

  predicate SaysBudget(v: Json, b: Budget) {
    && Says(Get(v, "maxImages"), b.maxImages) && Says(Get(v, "maxBytes"), b.maxBytes) && Says(Get(v, "step"), b.step)
    && b.maxImages > 0 && b.maxBytes > 0 && b.step > 0
  }

  lemma BudgetExactlyWhen(v: Json, b: Budget)
    ensures CleanBudget(v) == Some(b) <==> SaysBudget(v, b)
  {
  }

  /** The last two hundred of the items. */
  function Newest(items: seq<Item>): seq<Item> {
    if |items| <= 200 then items else items[|items| - 200..]
  }

  /** How many that leaves out, on top of those said to have been left out before. */
  function LeftOut(items: seq<Item>, v: Json): nat {
    (if |items| <= 200 then 0 else |items| - 200) + if v.Number? && 0 <= v.n <= 0x1F_FFFF_FFFF_FFFF then v.n else 0
  }

  /** What was sent spells the report, `items` being all the items it spells. */
  predicate SaysReport(c: Clock, v: Json, r: Report, items: seq<Item>) {
    && Get(v, "attemptId") == Text(r.attemptId) && IsAttemptId(r.attemptId) && SaysBudget(Get(v, "budget"), r.budget)
    && Says(Get(v, "windowStart"), r.windowStart) && Get(v, "vision") == Bool(r.vision) && SaysTime(c, Get(v, "preparedAt"), r.preparedAt)
    && Get(v, "model").Text? && r.model == (if |Get(v, "model").s| <= 200 then Get(v, "model").s else Get(v, "model").s[..200])
    && Get(v, "items").List? && SaysItems(Get(v, "items").items, items)
    && r.items == Newest(items) && r.truncated == LeftOut(items, Get(v, "truncated"))
    && if r.provider.None? then Get(v, "provider").Undefined? else !Get(v, "provider").Undefined? && SaysProvider(c, Get(v, "provider"), r.provider.value)
  }

  lemma CappedAre(items: seq<Item>, v: Json)
    ensures CapItems(items, Dropped(v)) == Capped(Newest(items), LeftOut(items, v))
  {
    assert items[0..] == items;
  }

  lemma CleanParts(c: Clock, v: Json, r: Report, items: seq<Item>)
    requires Clean(c, v) == Some(r) && Get(v, "items").List? && CleanItems(Get(v, "items").items) == Some(items)
    ensures SaysReport(c, v, r, items)
  {
    ItemsExactlyWhen(Get(v, "items").items, items);
    BudgetExactlyWhen(Get(v, "budget"), r.budget);
    CappedAre(items, Get(v, "truncated"));
    if r.provider.Some? { ProviderExactlyWhen(c, Get(v, "provider"), r.provider.value); }
  }

  lemma SaidIsClean(c: Clock, v: Json, r: Report, items: seq<Item>)
    requires SaysReport(c, v, r, items)
    ensures Clean(c, v) == Some(r)
  {
    ItemsExactlyWhen(Get(v, "items").items, items);
    BudgetExactlyWhen(Get(v, "budget"), r.budget);
    CappedAre(items, Get(v, "truncated"));
    if r.provider.Some? { ProviderExactlyWhen(c, Get(v, "provider"), r.provider.value); }
  }

  /** Whatever was sent is cleaned to a report exactly when it spells that report, and to nothing when it spells none. */
  lemma CleansExactlyWhen(c: Clock, v: Json, r: Report)
    ensures Clean(c, v) == Some(r) <==> exists items :: SaysReport(c, v, r, items)
  {
    if Clean(c, v) == Some(r) { CleanParts(c, v, r, CleanItems(Get(v, "items").items).value); }
    if items :| SaysReport(c, v, r, items) { SaidIsClean(c, v, r, items); }
  }

  /** The names an attempt and an error can have. */
  lemma NamesAre()
    ensures IsAttemptId("a-Z0") && !IsAttemptId("") && !IsAttemptId("a_b") && !IsAttemptId(seq(65, i => 'a')) && IsAttemptId(seq(64, i => 'a'))
    ensures IsErrorClass("$a_9") && !IsErrorClass("9a") && !IsErrorClass("") && !IsErrorClass("a-b") && !IsErrorClass(seq(65, i => 'a'))
  {
    assert "a_b"[1] == '_' && "a-b"[1] == '-' && "9a"[0] == '9';
  }
}
