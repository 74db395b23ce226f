/** What every run of publishing keeps. */
module ApprovalPublishSafety {
  import opened Wrappers
  import opened ApprovalState
  import opened ApprovalPublish

  // ----- The book grows -----

  /** Holds are added and move on; what is published of them stays. */
  ghost predicate Grows(b: Book, b': Book) {
    && (forall op :: op in b.been ==> op in b'.been && b.been[op] <= b'.been[op])
    && (forall op :: op in b.holds ==> op in b'.holds && b'.holds[op].published == b.holds[op].published)
    && (forall op :: op in b'.holds && op !in b.holds ==> b'.holds[op].published.None?)
  }

  /** A state a hold is newly in is one it was never in. */
  ghost predicate FreshStates(b: Book, b': Book) {
    forall op :: op in b'.holds && Known(b, Hint(op, b'.holds[op].state)) ==> op in b.holds && b.holds[op].state == b'.holds[op].state
  }

  lemma NewGrows(b: Book, op: string)
    requires Shaped(b) && op !in b.holds
    ensures Shaped(NewIn(b, op)) && Grows(b, NewIn(b, op)) && FreshStates(b, NewIn(b, op))
  {
  }

  lemma ChainGrows(states: set<State>, now: State, to: State)
    requires Chain(states, now) && Follows(now, to)
    ensures Chain(states + {to}, to) && to !in states && Rank(now) < Rank(to)
  {
  }

  lemma MovedIs(b: Book, op: string, to: State)
    requires Shaped(b) && op in b.holds
    ensures Moved(b, op, to) == b.(holds := b.holds[op := b.holds[op].(state := to)], been := b.been[op := b.been[op] + {to}])
  {
  }

  lemma MovedIsShaped(b: Book, op: string, to: State)
    requires Shaped(b) && op in b.holds && Follows(b.holds[op].state, to)
    ensures Shaped(Moved(b, op, to)) && !Known(b, Hint(op, to))
  {
    MovedIs(b, op, to);
    assert Chain(b.been[op], b.holds[op].state);
    ChainGrows(b.been[op], b.holds[op].state, to);
    var b' := Moved(b, op, to);
    forall o | o in b'.holds ensures Chain(b'.been[o], b'.holds[o].state) {
      if o != op { assert Chain(b.been[o], b.holds[o].state); }
    }
  }

  lemma MovedOnlyGrows(b: Book, op: string, to: State)
    requires op in b.holds && op in b.been
    ensures Grows(b, Moved(b, op, to))
    ensures !Known(b, Hint(op, to)) ==> FreshStates(b, Moved(b, op, to))
  {
  }

  lemma MovedGrows(b: Book, op: string, to: State)
    requires Shaped(b) && op in b.holds && Follows(b.holds[op].state, to)
    ensures Shaped(Moved(b, op, to)) && Grows(b, Moved(b, op, to)) && FreshStates(b, Moved(b, op, to))
  {
    MovedIsShaped(b, op, to);
    MovedOnlyGrows(b, op, to);
  }

  lemma GrowsAll(w: World, b': Book)
    requires Inv(w) && Shaped(b') && Grows(w.book, b')
    requires HintsOk(b', w.kept, w.pass, w.sends)
    ensures Inv(w.(book := b'))
  {
    GrowsCopy(w.book, b', w.d1);
    GrowsTries(w.book, b', w.d1, w.kept);
    GrowsPublished(w.book, b', w.d1);
    GrowsPass(w.book, b', w.d1, w.kept, w.pass);
  }

  lemma GrowsCopy(b: Book, b': Book, d: D1)
    requires Grows(b, b') && CopyOk(b, d)
    ensures CopyOk(b', d)
  {
  }

  lemma GrowsTries(b: Book, b': Book, d: D1, kept: Kept)
    requires Grows(b, b') && TriesOk(b, d, kept)
    ensures TriesOk(b', d, kept)
  {
  }

  lemma GrowsPublished(b: Book, b': Book, d: D1)
    requires Grows(b, b') && PublishedOk(b, d)
    ensures PublishedOk(b', d)
  {
  }

  lemma GrowsPass(b: Book, b': Book, d: D1, kept: Kept, p: Pass)
    requires Grows(b, b') && PassOk(b, d, kept, p)
    ensures PassOk(b', d, kept, p)
  {
    assert forall i :: 0 <= i < |DueNow(p)| ==> StillSo(b, kept, DueNow(p)[i]) ==> StillSo(b', kept, DueNow(p)[i]);
  }

  /** A state a hold newly is in was never hinted. */
  lemma GrowsHints(b: Book, b': Book, kept: Kept, p: Pass, s: Sends)
    requires Grows(b, b') && Shaped(b) && HintsOk(b, kept, p, s)
    requires FreshStates(b, b')
    ensures HintsOk(b', kept, p, s)
  {
    forall k: Hint ensures HintOk(b', kept, p, s, k) {
      assert HintOk(b, kept, p, s, k);
      assert k == Hint(k.operation, k.state);
    }
  }

  lemma NewHoldKeeps(w: World, op: string)
    requires Inv(w) && op !in w.book.holds
    ensures Inv(w.(book := NewIn(w.book, op)))
  {
    var b' := NewIn(w.book, op);
    NewGrows(w.book, op);
    GrowsHints(w.book, b', w.kept, w.pass, w.sends);
    GrowsAll(w, b');
  }

  lemma MoveKeeps(w: World, op: string, to: State)
    requires Inv(w) && op in w.book.holds && Follows(w.book.holds[op].state, to)
    ensures Inv(w.(book := Moved(w.book, op, to)))
  {
    var b' := Moved(w.book, op, to);
    MovedGrows(w.book, op, to);
    GrowsHints(w.book, b', w.kept, w.pass, w.sends);
    GrowsAll(w, b');
  }

  // ----- The copy moves on -----

  /** Every copy that was far enough still is, or was dropped. */
  ghost predicate Further(d: D1, d': D1) {
    forall k :: (Has(d, k) ==> Has(d', k)) && (k in d.unowned ==> k in d'.unowned || Has(d', k))
  }

  lemma CopyKeeps(w: World, d': D1)
    requires Inv(w) && Further(w.d1, d') && CopyOk(w.book, d')
    ensures Inv(w.(d1 := d'))
  {
    forall op | op in w.kept ensures TryOk(w.book, d', op, w.kept[op]) {
      assert TryOk(w.book, w.d1, op, w.kept[op]);
    }
    forall op | op in w.book.holds && w.book.holds[op].published.Some?
      ensures PublishedHas(w.book, d', Hint(op, w.book.holds[op].published.value))
    {
      assert PublishedHas(w.book, w.d1, Hint(op, w.book.holds[op].published.value));
    }
  }

  lemma MergeGoesFurther(d: D1, k: Hint)
    ensures Further(d, Merge(d, k)) && Has(Merge(d, k), k)
  {
    forall j: Hint | Has(d, j) ensures Has(Merge(d, k), j) {
    }
  }

  lemma MergeCopyOk(b: Book, d: D1, k: Hint)
    requires CopyOk(b, d) && Known(b, k)
    ensures CopyOk(b, Merge(d, k))
  {
    var d' := Merge(d, k);
    forall op | op in d'.copy ensures Known(b, Hint(op, d'.copy[op])) {
      assert op != k.operation ==> op in d.copy;
    }
  }

  lemma MergeKeeps(w: World, k: Hint)
    requires Inv(w) && Known(w.book, k)
    ensures Inv(w.(d1 := Merge(w.d1, k))) && Has(Merge(w.d1, k), k)
  {
    MergeGoesFurther(w.d1, k);
    MergeCopyOk(w.book, w.d1, k);
    CopyKeeps(w, Merge(w.d1, k));
  }

  lemma LateKeeps(w: World, late: set<Hint>)
    requires Inv(w) && forall k :: k in late ==> Known(w.book, k)
    ensures Inv(w.(d1 := w.d1.(late := late)))
  {
    CopyKeeps(w, w.d1.(late := late));
  }

  lemma DroppedGoesFurther(d: D1, op: string)
    requires op in d.copy
    ensures Further(d, Dropped(d, op))
  {
    forall k: Hint | Has(d, k) ensures Has(Dropped(d, op), k) {
      assert k == Hint(k.operation, k.state);
    }
  }

  lemma DroppedCopyOk(b: Book, d: D1, op: string)
    requires op in d.copy && CopyOk(b, d)
    ensures CopyOk(b, Dropped(d, op))
  {
    var d' := Dropped(d, op);
    forall o | o in d'.copy ensures Known(b, Hint(o, d'.copy[o])) {
      assert o in d.copy;
    }
    forall k | k in d'.dropped || k in d'.unowned ensures !Covers(d'.copy, k) {
      assert k.operation != op ==> k in d.dropped || k in d.unowned;
    }
  }

  lemma DropKeeps(w: World, op: string)
    requires Inv(w) && op in w.d1.copy
    ensures Inv(w.(d1 := Dropped(w.d1, op)))
  {
    DroppedGoesFurther(w.d1, op);
    DroppedCopyOk(w.book, w.d1, op);
    CopyKeeps(w, Dropped(w.d1, op));
  }

  // ----- The pass -----

  lemma IdleKeeps(w: World)
    requires Inv(w) && !(w.pass.Working? && w.pass.step.Sending?)
    ensures Inv(w.(pass := Idle))
  {
    forall k ensures HintOk(w.book, w.kept, Idle, w.sends, k) {
      assert HintOk(w.book, w.kept, w.pass, w.sends, k);
    }
  }

  lemma HeadIsKnown(w: World)
    requires Inv(w) && w.pass.Working?
    ensures AtWork(w) && StillSo(w.book, w.kept, w.pass.due[0]) && Known(w.book, Head(w.pass)) && Open(w.book, w.pass, Head(w.pass))
  {
    assert StillSo(w.book, w.kept, DueNow(w.pass)[0]);
  }

  lemma CutSendingKeeps(w: World)
    requires Inv(w) && w.pass.Working? && w.pass.step.Sending? && w.pass.due != []
    ensures Inv(w.(pass := Idle, sends := w.sends.(cut := OneMore(w.sends.cut, Head(w.pass)))))
  {
    var sends := w.sends.(cut := OneMore(w.sends.cut, Head(w.pass)));
    forall j: Hint ensures HintOk(w.book, w.kept, Idle, sends, j) {
      assert HintOk(w.book, w.kept, w.pass, w.sends, j);
    }
  }

  lemma CutWritingKeeps(w: World)
    requires Inv(w) && w.pass.Working? && w.pass.step.Writing? && w.pass.due != [] && Known(w.book, Head(w.pass))
    ensures Inv(w.(pass := Idle, d1 := Hung(w.d1, Head(w.pass))))
  {
    LateKeeps(w, w.d1.late + {Head(w.pass)});
    IdleKeeps(w.(d1 := Hung(w.d1, Head(w.pass))));
  }

  lemma CutKeeps(w: World)
    requires Inv(w)
    ensures Inv(CutShort(w))
  {
    if w.pass.Working? { HeadIsKnown(w); }
    if w.pass.Working? && w.pass.step.Sending? {
      CutSendingKeeps(w);
    } else if w.pass.Working? && w.pass.step.Writing? {
      CutWritingKeeps(w);
    } else {
      IdleKeeps(w);
    }
  }

  lemma HintingKeeps(w: World)
    requires Inv(w) && w.pass.Working? && w.pass.step.Writing? && w.pass.due != [] && Has(w.d1, Head(w.pass))
    ensures Inv(w.(pass := w.pass.(step := Hinting)))
  {
    var p := w.pass.(step := Hinting);
    forall k ensures HintOk(w.book, w.kept, p, w.sends, k) {
      assert HintOk(w.book, w.kept, w.pass, w.sends, k);
    }
  }

  /** The head's own hint is counted once more, within the bound its tries leave; no other hint's count moves. */
  lemma SendHint(b: Book, d: D1, kept: Kept, p: Pass, s: Sends, k: Hint)
    requires p.Working? && p.step.Hinting? && p.due != [] && HintOk(b, kept, p, s, k)
    requires k == Head(p) ==> Open(b, p, k) && Known(b, k)
    requires k.operation in kept ==> TryOk(b, d, k.operation, kept[k.operation])
    ensures HintOk(b, kept, p.(step := Sending), s.(hints := OneMore(s.hints, Head(p))), k)
  {
  }

  lemma SendingPass(b: Book, d: D1, kept: Kept, p: Pass)
    requires PassOk(b, d, kept, p) && p.Working? && p.step.Hinting?
    ensures PassOk(b, d, kept, p.(step := Sending))
  {
  }

  lemma SendKeeps(w: World)
    requires Inv(w) && w.pass.Working? && w.pass.step.Hinting?
    ensures AtWork(w) && Inv(Next(w, Send))
  {
    HeadIsKnown(w);
    SendingPass(w.book, w.d1, w.kept, w.pass);
    var p := w.pass.(step := Sending);
    var sends := w.sends.(hints := OneMore(w.sends.hints, Head(w.pass)));
    forall k: Hint ensures HintOk(w.book, w.kept, p, sends, k) {
      assert HintOk(w.book, w.kept, w.pass, w.sends, k);
      if k.operation in w.kept { assert TryOk(w.book, w.d1, k.operation, w.kept[k.operation]); }
      SendHint(w.book, w.d1, w.kept, w.pass, w.sends, k);
    }
  }

  // ----- The pass moves on to its next row -----

  /** Only one hold's own row changed, and not the states it has had. */
  ghost predicate BookElsewhere(b: Book, b': Book, op: string) {
    && b'.order == b.order && b'.been == b.been
    && (forall o :: (o in b'.holds <==> o in b.holds) && (o in b.holds ==> b'.holds[o].state == b.holds[o].state))
    && (forall o :: o in b.holds && o != op ==> b'.holds[o] == b.holds[o])
  }

  ghost predicate KeptElsewhere(kept: Kept, kept': Kept, op: string) {
    forall o :: o != op ==> (o in kept' <==> o in kept) && (o in kept ==> kept'[o] == kept[o])
  }

  lemma OnlyThere(b: Book, kept: Kept, k: Hint, t: Tries)
    requires k.operation in b.holds
    ensures BookElsewhere(b, b, k.operation) && BookElsewhere(b, Publish(b, k.operation, k.state), k.operation)
    ensures KeptElsewhere(kept, kept - {k.operation}, k.operation) && KeptElsewhere(kept, kept[k.operation := t], k.operation)
  {
  }

  /** The rest of the pass is still so after the first row's own hold and tries changed. */
  lemma RestStillSo(b: Book, d: D1, kept: Kept, p: Pass, b': Book, kept': Kept)
    requires PassOk(b, d, kept, p) && TriesOk(b, d, kept) && p.Working? && p.due != []
    requires BookElsewhere(b, b', p.due[0].operation) && KeptElsewhere(kept, kept', p.due[0].operation)
    ensures PassOk(b', d, kept', Onward(p))
  {
    var rest := p.due[1..];
    forall i | 0 <= i < |rest| ensures StillSo(b', kept', rest[i]) {
      assert rest[i] == DueNow(p)[i + 1] && DueNow(p)[0].operation != DueNow(p)[i + 1].operation;
      assert StillSo(b, kept, DueNow(p)[i + 1]);
    }
    forall i, j | 0 <= i < j < |rest| ensures rest[i].operation != rest[j].operation {
      assert DueNow(p)[i + 1].operation != DueNow(p)[j + 1].operation;
    }
    if rest != [] && rest[0].indexed {
      assert StillSo(b, kept, DueNow(p)[1]);
      assert TryOk(b, d, rest[0].operation, kept[rest[0].operation]);
    }
  }

  lemma OnwardDue(p: Pass, k: Hint)
    requires p.Working? && p.due != [] && OneEach(p.due) && InDue(DueNow(Onward(p)), k)
    ensures InDue(DueNow(p), k) && k.operation != p.due[0].operation
  {
    var rest := DueNow(Onward(p));
    var i :| 0 <= i < |rest| && rest[i].operation == k.operation && rest[i].state == k.state;
    assert rest[i] == p.due[i + 1] && p.due[0].operation != p.due[i + 1].operation;
  }

  /** What a head done with leaves of another hold's hints. */
  lemma OnwardHint(b: Book, kept: Kept, p: Pass, s: Sends, b': Book, kept': Kept, j: Hint)
    requires HintOk(b, kept, p, s, j) && p.Working? && p.due != [] && OneEach(p.due) && j.operation != Head(p).operation
    requires b'.been == b.been && (j.operation in b'.holds <==> j.operation in b.holds)
    requires j.operation in b.holds ==> b'.holds[j.operation] == b.holds[j.operation]
    requires (j.operation in kept' <==> j.operation in kept) && (j.operation in kept ==> kept'[j.operation] == kept[j.operation])
    ensures HintOk(b', kept', Onward(p), s, j)
  {
    if InDue(DueNow(Onward(p)), j) { OnwardDue(p, j); }
  }

  /** A later state of the head's own hold: nothing published or tried was past the head, so its bound is untouched. */
  lemma LaterHint(b: Book, kept: Kept, p: Pass, s: Sends, b': Book, kept': Kept, j: Hint)
    requires HintOk(b, kept, p, s, j) && p.Working? && p.due != [] && OneEach(p.due) && StillSo(b, kept, p.due[0])
    requires j.operation == Head(p).operation && j.state != Head(p).state && j.operation in b.been
    requires Chain(b.been[j.operation], b.holds[j.operation].state)
    requires b'.been == b.been && j.operation in b'.holds && b'.holds[j.operation].state == b.holds[j.operation].state
    ensures HintOk(b', kept', Onward(p), s, j)
  {
    if Open(b', Onward(p), j) {
      if InDue(DueNow(Onward(p)), j) { OnwardDue(p, j); }
      assert j.state == b.holds[j.operation].state;
      assert Rank(Head(p).state) < Rank(j.state);
      assert Open(b, p, j) && Tried(kept, j) == 0;
    }
  }

  /** The published hint itself: no longer open. */
  lemma PublishedHint(b: Book, kept: Kept, p: Pass, s: Sends, b': Book, kept': Kept, p': Pass, k: Hint)
    requires HintOk(b, kept, p, s, k) && b'.been == b.been && k.operation in b'.holds && b'.holds[k.operation].published == Some(k.state)
    ensures HintOk(b', kept', p', s, k)
  {
  }

  lemma HeadParts(w: World)
    requires Inv(w) && w.pass.Working?
    ensures AtWork(w) && OneEach(w.pass.due) && StillSo(w.book, w.kept, w.pass.due[0])
    ensures var op := Head(w.pass).operation; op in w.book.been && Chain(w.book.been[op], w.book.holds[op].state)
  {
    HeadIsKnown(w);
  }

  lemma PublishHeadHint(w: World, k: Hint, j: Hint)
    requires w.pass.Working? && AtWork(w) && k == Head(w.pass) && OneEach(w.pass.due) && StillSo(w.book, w.kept, w.pass.due[0])
    requires k.operation in w.book.been && Chain(w.book.been[k.operation], w.book.holds[k.operation].state)
    requires HintOk(w.book, w.kept, w.pass, w.sends, j)
    ensures HintOk(Publish(w.book, k.operation, k.state), w.kept - {k.operation}, Onward(w.pass), w.sends, j)
  {
    var b', kept' := Publish(w.book, k.operation, k.state), w.kept - {k.operation};
    if j.operation != k.operation {
      OnwardHint(w.book, w.kept, w.pass, w.sends, b', kept', j);
    } else if j.state != k.state {
      LaterHint(w.book, w.kept, w.pass, w.sends, b', kept', j);
    } else {
      PublishedHint(w.book, w.kept, w.pass, w.sends, b', kept', Onward(w.pass), j);
    }
  }

  lemma PublishHeadHints(w: World, k: Hint)
    requires Inv(w) && w.pass.Working? && AtWork(w) && k == Head(w.pass)
    ensures HintsOk(Publish(w.book, k.operation, k.state), w.kept - {k.operation}, Onward(w.pass), w.sends)
  {
    HeadParts(w);
    forall j: Hint ensures HintOk(Publish(w.book, k.operation, k.state), w.kept - {k.operation}, Onward(w.pass), w.sends, j) {
      assert HintOk(w.book, w.kept, w.pass, w.sends, j);
      PublishHeadHint(w, k, j);
    }
  }

  lemma FewerTries(b: Book, d: D1, kept: Kept, op: string)
    requires TriesOk(b, d, kept)
    ensures TriesOk(b, d, kept - {op})
  {
    var kept' := kept - {op};
    forall o | o in kept' ensures TryOk(b, d, o, kept'[o]) {
      assert TryOk(b, d, o, kept[o]);
    }
  }

  lemma SameStatesShaped(b: Book, b': Book, op: string)
    requires Shaped(b) && BookElsewhere(b, b', op)
    ensures Shaped(b')
  {
    forall o | o in b'.holds ensures Chain(b'.been[o], b'.holds[o].state) {
      assert Chain(b.been[o], b.holds[o].state);
    }
  }

  lemma PublishHeadKeeps(w: World)
    requires Inv(w) && w.pass.Working? && !w.pass.step.Writing?
    ensures AtWork(w) && Inv(PublishHead(w))
  {
    HeadIsKnown(w);
    var k := Head(w.pass);
    PublishHeadBook(w, k);
    PublishHeadPass(w, k);
    PublishHeadHints(w, k);
  }

  lemma PublishHeadPass(w: World, k: Hint)
    requires TriesOk(w.book, w.d1, w.kept) && PassOk(w.book, w.d1, w.kept, w.pass) && AtWork(w) && k == Head(w.pass)
    ensures PassOk(Publish(w.book, k.operation, k.state), w.d1, w.kept - {k.operation}, Onward(w.pass))
  {
    OnlyThere(w.book, w.kept, k, Tries(k.state, false, 0, 0));
    RestStillSo(w.book, w.d1, w.kept, w.pass, Publish(w.book, k.operation, k.state), w.kept - {k.operation});
  }

  lemma PublishHeadBook(w: World, k: Hint)
    requires Inv(w) && k.operation in w.book.holds && Known(w.book, k) && Has(w.d1, k)
    ensures var b', kept' := Publish(w.book, k.operation, k.state), w.kept - {k.operation};
            Shaped(b') && CopyOk(b', w.d1) && TriesOk(b', w.d1, kept') && PublishedOk(b', w.d1)
  {
    var b', kept' := Publish(w.book, k.operation, k.state), w.kept - {k.operation};
    OnlyThere(w.book, w.kept, k, Tries(k.state, false, 0, 0));
    SameStatesShaped(w.book, b', k.operation);
    PublishedHeadOk(w.book, w.d1, k);
    FewerTries(w.book, w.d1, w.kept, k.operation);
    GrowsNot(w.book, b', w.d1, kept');
  }

  /** The copy's and the tries' parts speak only of the states had. */
  lemma GrowsNot(b: Book, b': Book, d: D1, kept: Kept)
    requires b'.been == b.been && CopyOk(b, d) && TriesOk(b, d, kept)
    ensures CopyOk(b', d) && TriesOk(b', d, kept)
  {
    forall op | op in kept ensures TryOk(b', d, op, kept[op]) {
      assert TryOk(b, d, op, kept[op]);
    }
  }

  lemma PublishedHeadOk(b: Book, d: D1, k: Hint)
    requires PublishedOk(b, d) && k.operation in b.holds && Known(b, k) && Has(d, k)
    ensures PublishedOk(Publish(b, k.operation, k.state), d)
  {
    var b' := Publish(b, k.operation, k.state);
    forall op | op in b'.holds && b'.holds[op].published.Some?
      ensures PublishedHas(b', d, Hint(op, b'.holds[op].published.value))
    {
      if op != k.operation { assert PublishedHas(b, d, Hint(op, b.holds[op].published.value)); }
    }
  }

  /** The head's own hint: a failed try more is counted, whether or not it was sent. */
  lemma RetryHint(b: Book, kept: Kept, p: Pass, s: Sends, kept': Kept, t: Tries)
    requires p.Working? && p.due != [] && StillSo(b, kept, p.due[0]) && HintOk(b, kept, p, s, Head(p)) && Open(b, p, Head(p))
    requires kept' == kept[Head(p).operation := t] && t.forState == Head(p).state
    requires t.indexed ==> t.attempts == p.due[0].attempts + 1
    requires !t.indexed ==> p.step.Writing? && !p.due[0].indexed
    ensures HintOk(b, kept', Onward(p), s, Head(p))
  {
    var k := Head(p);
    assert Tried(kept, k) <= p.due[0].attempts && (!p.due[0].indexed ==> Tried(kept, k) == 0);
    assert Tried(kept', k) == if t.indexed then t.attempts else 0;
  }

  lemma RetryHints(w: World, kept': Kept, t: Tries)
    requires Inv(w) && w.pass.Working? && AtWork(w) && kept' == w.kept[Head(w.pass).operation := t] && t.forState == Head(w.pass).state
    requires t.indexed ==> t.attempts == w.pass.due[0].attempts + 1
    requires !t.indexed ==> w.pass.step.Writing?
    ensures HintsOk(w.book, kept', Onward(w.pass), w.sends)
  {
    var k := Head(w.pass);
    HeadIsKnown(w);
    assert HintOk(w.book, w.kept, w.pass, w.sends, k);
    RetryHint(w.book, w.kept, w.pass, w.sends, kept', t);
    forall j | j != k ensures HintOk(w.book, kept', Onward(w.pass), w.sends, j) {
      assert HintOk(w.book, w.kept, w.pass, w.sends, j);
      if j.operation != k.operation {
        OnwardHint(w.book, w.kept, w.pass, w.sends, w.book, kept', j);
      } else {
        LaterHint(w.book, w.kept, w.pass, w.sends, w.book, kept', j);
      }
    }
  }

  lemma OneMoreTry(b: Book, d: D1, kept: Kept, op: string, t: Tries)
    requires TriesOk(b, d, kept) && TryOk(b, d, op, t)
    ensures TriesOk(b, d, kept[op := t])
  {
    var kept' := kept[op := t];
    forall o | o in kept' ensures TryOk(b, d, o, kept'[o]) {
      if o != op { assert TryOk(b, d, o, kept[o]); }
    }
  }

  lemma RetryHeadPass(w: World, t: Tries)
    requires TriesOk(w.book, w.d1, w.kept) && PassOk(w.book, w.d1, w.kept, w.pass) && AtWork(w)
    ensures PassOk(w.book, w.d1, w.kept[Head(w.pass).operation := t], Onward(w.pass))
  {
    OnlyThere(w.book, w.kept, Head(w.pass), t);
    RestStillSo(w.book, w.d1, w.kept, w.pass, w.book, w.kept[Head(w.pass).operation := t]);
  }

  lemma RetryHeadKeeps(w: World, indexed: bool)
    requires Inv(w) && w.pass.Working? && (if indexed then !w.pass.step.Writing? && w.pass.due[0].attempts + 1 < HINT_ATTEMPTS else w.pass.step.Writing?)
    ensures AtWork(w) && Inv(RetryHead(w, indexed))
  {
    HeadIsKnown(w);
    var t := TriedAgain(w.pass, indexed);
    RetryTryOk(w, indexed);
    OneMoreTry(w.book, w.d1, w.kept, Head(w.pass).operation, t);
    RetryHeadPass(w, t);
    RetryHints(w, w.kept[Head(w.pass).operation := t], t);
  }

  lemma RetryTryOk(w: World, indexed: bool)
    requires AtWork(w) && Known(w.book, Head(w.pass)) && StepOk(w.d1, w.pass)
    requires indexed ==> !w.pass.step.Writing? && w.pass.due[0].attempts + 1 < HINT_ATTEMPTS
    ensures TryOk(w.book, w.d1, Head(w.pass).operation, TriedAgain(w.pass, indexed))
  {
  }

  lemma FailKeeps(w: World, indexed: bool)
    requires Inv(w) && w.pass.Working? && (indexed <==> !w.pass.step.Writing?)
    ensures AtWork(w) && Inv(Fail(w, indexed))
  {
    HeadIsKnown(w);
    if indexed && w.pass.due[0].attempts + 1 >= HINT_ATTEMPTS { PublishHeadKeeps(w); } else { RetryHeadKeeps(w, indexed); }
  }

  lemma WroteKeeps(w: World, committed: bool, answered: bool)
    requires Inv(w) && Can(w, Wrote(committed, answered))
    ensures Inv(Next(w, Wrote(committed, answered)))
  {
    HeadIsKnown(w);
    var k := Head(w.pass);
    var d' := if committed then Merge(w.d1, k) else Hung(w.d1, k);
    if committed { MergeKeeps(w, k); } else { LateKeeps(w, w.d1.late + {k}); }
    var wrote := w.(d1 := d');
    if answered { HintingKeeps(wrote); } else { FailKeeps(wrote, false); }
  }

  // ----- A pass begins -----

  /** An unpublished hold, sound in every part. */
  ghost predicate Ready(b: Book, d: D1, kept: Kept, op: string) {
    && Unpublished(b, op) && op in b.been && Chain(b.been[op], b.holds[op].state)
    && (op in kept ==> TryOk(b, d, op, kept[op]))
    && (b.holds[op].published.Some? ==> Known(b, Hint(op, b.holds[op].published.value)))
  }

  lemma CaptureIsStillSo(b: Book, d: D1, kept: Kept, op: string)
    requires Ready(b, d, kept, op)
    ensures StillSo(b, kept, Capture(b, kept, op))
  {
  }

  lemma {:induction false} DueIsStillSo(b: Book, d: D1, kept: Kept, now: int, ops: seq<string>)
    requires forall i :: 0 <= i < |ops| ==> Ready(b, d, kept, ops[i])
    ensures AllStillSo(b, kept, DueOf(b, kept, now, ops))
  {
    if ops != [] {
      DueIsStillSo(b, d, kept, now, ops[1..]);
      assert Ready(b, d, kept, ops[0]);
      CaptureIsStillSo(b, d, kept, ops[0]);
    }
  }

  lemma {:induction false} DueIsOneEach(b: Book, kept: Kept, now: int, ops: seq<string>)
    requires Distinct(ops)
    ensures OneEach(DueOf(b, kept, now, ops)) && forall c :: c in DueOf(b, kept, now, ops) ==> c.operation in ops
  {
    if ops != [] {
      assert Distinct(ops[1..]);
      DueIsOneEach(b, kept, now, ops[1..]);
      var rest := DueOf(b, kept, now, ops[1..]);
      assert forall i :: 0 <= i < |rest| ==> rest[i] in rest;
      assert ops[0] !in ops[1..];
    }
  }

  lemma {:induction false} OldestDistinct(b: Book, ops: seq<string>, most: nat)
    requires Distinct(ops)
    ensures Distinct(Oldest(b, ops, most))
  {
    if ops != [] && most > 0 {
      assert Distinct(ops[1..]) && ops[0] !in ops[1..];
      OldestDistinct(b, ops[1..], if Unpublished(b, ops[0]) then most - 1 else most);
    }
  }

  lemma RowsAreReady(w: World, rows: seq<string>)
    requires Inv(w) && forall op :: op in rows ==> Unpublished(w.book, op)
    ensures forall i :: 0 <= i < |rows| ==> Ready(w.book, w.d1, w.kept, rows[i])
  {
    forall i | 0 <= i < |rows| ensures Ready(w.book, w.d1, w.kept, rows[i]) {
      var op := rows[i];
      assert op in rows && Unpublished(w.book, op) && Chain(w.book.been[op], w.book.holds[op].state);
      if op in w.kept { assert TryOk(w.book, w.d1, op, w.kept[op]); }
      if w.book.holds[op].published.Some? { assert PublishedHas(w.book, w.d1, Hint(op, w.book.holds[op].published.value)); }
    }
  }

  lemma DueIsSound(w: World)
    requires Inv(w)
    ensures AllStillSo(w.book, w.kept, Due(w)) && OneEach(Due(w))
  {
    var rows := Oldest(w.book, w.book.order, PASS_ROWS);
    OldestDistinct(w.book, w.book.order, PASS_ROWS);
    RowsAreReady(w, rows);
    DueIsStillSo(w.book, w.d1, w.kept, w.now, rows);
    DueIsOneEach(w.book, w.kept, w.now, rows);
  }

  /** What a pass reads is as it is, so no more hints are open than before. */
  lemma AskingHint(b: Book, kept: Kept, due: seq<Captured>, at: int, s: Sends, k: Hint)
    requires HintOk(b, kept, Idle, s, k)
    requires InDue(due, k) ==> k.operation in b.holds && k.state == b.holds[k.operation].state
    ensures HintOk(b, kept, Asking(due, at), s, k)
  {
  }

  lemma AskingKeeps(w: World, due: seq<Captured>)
    requires Inv(w) && w.pass.Idle? && AllStillSo(w.book, w.kept, due) && OneEach(due)
    requires forall k: Hint :: InDue(due, k) ==> k.operation in w.book.holds && k.state == w.book.holds[k.operation].state
    ensures Inv(w.(pass := Asking(due, w.now)))
  {
    forall k: Hint ensures HintOk(w.book, w.kept, Asking(due, w.now), w.sends, k) {
      assert HintOk(w.book, w.kept, w.pass, w.sends, k);
      AskingHint(w.book, w.kept, due, w.now, w.sends, k);
    }
  }

  lemma StartKeeps(w: World)
    requires Inv(w) && w.pass.Idle?
    ensures Inv(Next(w, Start))
  {
    DueIsSound(w);
    if Due(w) != [] {
      forall k: Hint ensures InDue(Due(w), k) ==> k.operation in w.book.holds && k.state == w.book.holds[k.operation].state {
        DueIsCurrent(w, k);
      }
      AskingKeeps(w, Due(w));
    }
  }

  lemma {:induction false} DueOfIsCurrent(b: Book, kept: Kept, now: int, ops: seq<string>)
    ensures forall c :: c in DueOf(b, kept, now, ops) ==> c.operation in b.holds && c.state == b.holds[c.operation].state
  {
    if ops != [] { DueOfIsCurrent(b, kept, now, ops[1..]); }
  }

  lemma DueIsCurrent(w: World, k: Hint)
    ensures InDue(Due(w), k) ==> k.operation in w.book.holds && k.state == w.book.holds[k.operation].state
  {
    DueOfIsCurrent(w.book, w.kept, w.now, Oldest(w.book, w.book.order, PASS_ROWS));
    if InDue(Due(w), k) {
      var i :| 0 <= i < |Due(w)| && Due(w)[i].operation == k.operation && Due(w)[i].state == k.state;
      assert Due(w)[i] in Due(w);
    }
  }

  lemma BeginKeeps(w: World, silent: bool)
    requires Inv(w) && w.pass.Asking?
    ensures Inv(w.(pass := Begin(w.pass.due, w.pass.at, silent)))
  {
    var p := Begin(w.pass.due, w.pass.at, silent);
    if w.pass.due != [] {
      var c := w.pass.due[0];
      assert StillSo(w.book, w.kept, DueNow(w.pass)[0]);
      if c.indexed { assert TryOk(w.book, w.d1, c.operation, w.kept[c.operation]); }
    }
    forall k: Hint ensures HintOk(w.book, w.kept, p, w.sends, k) {
      assert HintOk(w.book, w.kept, w.pass, w.sends, k);
      BegunHint(w.book, w.kept, w.pass.due, w.pass.at, silent, w.sends, k);
    }
  }

  lemma BegunHint(b: Book, kept: Kept, due: seq<Captured>, at: int, silent: bool, s: Sends, k: Hint)
    requires HintOk(b, kept, Asking(due, at), s, k)
    ensures HintOk(b, kept, Begin(due, at, silent), s, k)
  {
  }

  // ----- No registry row -----

  lemma {:induction false} ReadAsIs(due: seq<Captured>, i: nat)
    requires OneEach(due) && i < |due|
    ensures due[i].operation in Operations(due) && ReadAs(due, due[i].operation) == due[i].state
  {
    assert due[i] in due;
    if i > 0 {
      assert due[0].operation != due[i].operation;
      forall a, b | 0 <= a < b < |due[1..]| ensures due[1..][a].operation != due[1..][b].operation {
        assert due[a + 1].operation != due[b + 1].operation;
      }
      ReadAsIs(due[1..], i - 1);
    }
  }

  lemma DisownedShaped(b: Book, due: seq<Captured>)
    requires Shaped(b)
    ensures Shaped(PublishAll(b, due))
  {
    var b' := PublishAll(b, due);
    forall o | o in b'.holds ensures Chain(b'.been[o], b'.holds[o].state) {
      assert Chain(b.been[o], b.holds[o].state);
    }
  }

  lemma DisownedTries(b: Book, d: D1, kept: Kept, due: seq<Captured>)
    requires TriesOk(b, d, kept) && CopyOk(b, d)
    ensures TriesOk(PublishAll(b, due), Excused(d, due), kept - Operations(due)) && CopyOk(PublishAll(b, due), Excused(d, due))
  {
    var kept' := kept - Operations(due);
    forall o | o in kept' ensures TryOk(PublishAll(b, due), Excused(d, due), o, kept'[o]) {
      assert TryOk(b, d, o, kept[o]);
    }
  }

  lemma DisownedPublished(b: Book, d: D1, kept: Kept, due: seq<Captured>)
    requires PublishedOk(b, d) && OneEach(due) && AllStillSo(b, kept, due)
    ensures PublishedOk(PublishAll(b, due), Excused(d, due))
  {
    var b', d' := PublishAll(b, due), Excused(d, due);
    forall o | o in b'.holds && b'.holds[o].published.Some?
      ensures PublishedHas(b', d', Hint(o, b'.holds[o].published.value))
    {
      if o in Operations(due) {
        var c :| c in due && c.operation == o;
        var i :| 0 <= i < |due| && due[i] == c;
        ReadAsIs(due, i);
        assert StillSo(b, kept, due[i]);
        assert Covers(d.copy, Hint(c.operation, c.state)) || Hint(c.operation, c.state) in d'.unowned;
      } else {
        assert PublishedHas(b, d, Hint(o, b.holds[o].published.value));
      }
    }
  }

  /** A hold marked without a copy: a later state of it was never published nor tried. */
  lemma DisownedHint(b: Book, kept: Kept, p: Pass, s: Sends, i: nat, j: Hint)
    requires p.Asking? && OneEach(p.due) && i < |p.due| && j.operation == p.due[i].operation
    requires HintOk(b, kept, p, s, j) && StillSo(b, kept, p.due[i])
    requires j.operation in b.been && Chain(b.been[j.operation], b.holds[j.operation].state)
    ensures HintOk(PublishAll(b, p.due), kept - Operations(p.due), Idle, s, j)
  {
    ReadAsIs(p.due, i);
    var b' := PublishAll(b, p.due);
    if Open(b', Idle, j) {
      assert Rank(p.due[i].state) < Rank(j.state);
      assert Open(b, p, j) && Tried(kept, j) == 0;
    }
  }

  lemma DisownedOther(b: Book, kept: Kept, p: Pass, s: Sends, j: Hint)
    requires p.Asking? && j.operation !in Operations(p.due) && HintOk(b, kept, p, s, j)
    ensures HintOk(PublishAll(b, p.due), kept - Operations(p.due), Idle, s, j)
  {
  }

  lemma DisownedHints(b: Book, d: D1, kept: Kept, p: Pass, s: Sends)
    requires Shaped(b) && p.Asking? && PassOk(b, d, kept, p) && HintsOk(b, kept, p, s)
    ensures HintsOk(PublishAll(b, p.due), kept - Operations(p.due), Idle, s)
  {
    forall j: Hint ensures HintOk(PublishAll(b, p.due), kept - Operations(p.due), Idle, s, j) {
      assert HintOk(b, kept, p, s, j);
      if j.operation in Operations(p.due) {
        var i := IndexOf(p.due, j.operation);
        assert StillSo(b, kept, DueNow(p)[i]);
        assert Chain(b.been[j.operation], b.holds[j.operation].state);
        DisownedHint(b, kept, p, s, i, j);
      } else {
        DisownedOther(b, kept, p, s, j);
      }
    }
  }

  lemma IndexOf(due: seq<Captured>, op: string) returns (i: nat)
    requires op in Operations(due)
    ensures i < |due| && due[i].operation == op
  {
    var c :| c in due && c.operation == op;
    i :| 0 <= i < |due| && due[i] == c;
  }

  lemma DisownedKeeps(w: World)
    requires Inv(w) && w.pass.Asking?
    ensures Inv(Disowned(w))
  {
    DisownedShaped(w.book, w.pass.due);
    DisownedTries(w.book, w.d1, w.kept, w.pass.due);
    DisownedPublished(w.book, w.d1, w.kept, w.pass.due);
    DisownedHints(w.book, w.d1, w.kept, w.pass, w.sends);
  }

  // ----- Every step, every run -----

  lemma StepInv(w: World, a: Action)
    requires Inv(w) && Can(w, a)
    ensures Inv(Next(w, a))
  {
    match a
    case NewHold(op) => NewHoldKeeps(w, op);
    case Move(op, to) => MoveKeeps(w, op, to);
    case DropCopy(op) => DropKeeps(w, op);
    case LateWrite(k) =>
      MergeKeeps(w, k);
      LateKeeps(w.(d1 := Merge(w.d1, k)), w.d1.late - {k});
    case Start => StartKeeps(w);
    case AskFailed => IdleKeeps(w);
    case Asked => if w.status.NotProvisioned? { DisownedKeeps(w); } else { BeginKeeps(w, Silent(w)); }
    case Wrote(committed, answered) => WroteKeeps(w, committed, answered);
    case Finish =>
      HeadIsKnown(w);
      PublishHeadKeeps(w);
    case KeyFailed =>
      HeadIsKnown(w);
      FailKeeps(w, true);
    case Send => SendKeeps(w);
    case Answered(ok) =>
      HeadIsKnown(w);
      if ok { PublishHeadKeeps(w); } else { FailKeeps(w, true); }
    case CutOff => CutKeeps(w);
    case _ =>
  }

  lemma {:induction false} RunInv(w: World, actions: seq<Action>)
    requires Inv(w) && IsRun(w, actions)
    ensures Inv(After(w, actions))
    decreases |actions|
  {
    if actions != [] {
      StepInv(w, actions[0]);
      RunInv(Next(w, actions[0]), actions[1..]);
    }
  }

  lemma InitInv(now: int)
    ensures Inv(Init(now))
  {
  }
}
