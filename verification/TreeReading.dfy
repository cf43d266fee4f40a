/** Descents keep the invariant and always find a child (photondb/src/tree/mod.rs `try_find_leaf`). */
module TreeReading {
  import opened Data
  import opened Pages
  import opened InnerChain
  import opened TreeProtocol
  import opened TreeInvariant

  /** `s'` differs from `s` in what operations hold locally. */
  ghost predicate SamePages(s: State, s': State) {
    && s'.mem == s.mem && s'.table == s.table && s'.written == s.written
    && s.cursors <= s'.cursors
  }

  lemma OldCursors(s: State, a: Aux, s': State, c: Cursor)
    requires Domains(s, a) && Domains(s', a) && CursorOk(s, a, c) && SamePages(s, s')
    ensures CursorOk(s', a, c)
  {
  }

  lemma OldViews(s: State, a: Aux, s': State, v: View)
    requires Domains(s, a) && Domains(s', a) && SamePages(s, s')
    ensures ViewOk(s, a, v) ==> ViewOk(s', a, v)
    ensures StaleOk(s, a, v) ==> StaleOk(s', a, v)
  {
  }

  lemma SamePagesShape(s: State, a: Aux, s': State)
    requires Domains(s, a) && Chains(s, a) && Nodes(s, a) && Recorded(s, a) && RootOk(s, a) && Levels(s, a) &&
             SamePages(s, s')
    ensures Domains(s', a) && Chains(s', a) && Nodes(s', a) && Recorded(s', a) && RootOk(s', a) && Levels(s', a)
  {
  }

  lemma SamePagesLinks(s: State, a: Aux, s': State)
    requires Domains(s, a) && Domains(s', a) && PublishedOk(s, a) && Children(s, a) && SamePages(s, s')
    ensures PublishedOk(s', a) && Children(s', a)
  {
    forall x | x in a.pub
      ensures InStep(s', a, x)
    {
      assert InStep(s, a, x);
    }
    forall q, i | q in s'.table && 0 <= i < |a.nodes[q].ents|
      ensures ChildOk(s', a, q, i)
    {
      assert ChildOk(s, a, q, i);
    }
  }

  lemma SamePagesInv(s: State, a: Aux, s': State)
    requires Inv(s, a) && SamePages(s, s')
    requires Domains(s', a) ==> Locals(s', a)
    ensures Inv(s', a)
  {
    SamePagesShape(s, a, s');
    SamePagesLinks(s, a, s');
    forall x: Addr
      ensures PageOk(s'.mem, x)
    {
      assert PageOk(s.mem, x);
    }
  }

  // ----- Start

  lemma StartInv(s: State, a: Aux, s': State, key: RawKey)
    requires Inv(s, a) && Start(s, s', key)
    ensures Inv(s', a)
  {
    SamePagesShape(s, a, s');
    forall c | c in s'.cursors
      ensures CursorOk(s', a, c)
    {
      if c in s.cursors {
        assert CursorOk(s, a, c);
        OldCursors(s, a, s', c);
      }
    }
    OldLocals(s, a, s');
    SamePagesInv(s, a, s');
  }

  lemma OldLocals(s: State, a: Aux, s': State)
    requires Domains(s, a) && Domains(s', a) && Locals(s, a) && SamePages(s, s')
    ensures forall v {:trigger ViewOk(s', a, v)} :: v in s.views ==> ViewOk(s', a, v)
    ensures forall v {:trigger StaleOk(s', a, v)} :: v in s.stale ==> StaleOk(s', a, v)
    ensures forall c {:trigger CursorOk(s', a, c)} :: c in s.cursors ==> CursorOk(s', a, c)
  {
    forall v | v in s.views
      ensures ViewOk(s', a, v)
    {
      assert ViewOk(s, a, v);
      OldViews(s, a, s', v);
    }
    forall v | v in s.stale
      ensures StaleOk(s', a, v)
    {
      assert StaleOk(s, a, v);
      OldViews(s, a, s', v);
    }
    forall c | c in s.cursors
      ensures CursorOk(s', a, c)
    {
      assert CursorOk(s, a, c);
      OldCursors(s, a, s', c);
    }
  }

  // ----- Visit

  /** The descent's page has a child whose range holds the key. */
  lemma ChildForKey(n: Node, key: RawKey) returns (i: nat)
    requires NodeOk(n) && n.level > 0 && Contains(n.rng, key)
    ensures i < |n.ents| && n.ents[i].key <= key && Below(key, EndOf(n.ents, i, n.rng.hi))
    ensures Answers(FindChild(n.chain, key), n.ents, i, n.rng.hi)
  {
    i := UpperBound(n.ents, key) - 1;
    LookupAt(n.chain, n.ents, n.rng.hi, i, key);
  }

  /** `try_find_leaf` never meets "child page must exist", and the cursor it continues with is good. */
  lemma DescentFindsChild(s: State, a: Aux, c: Cursor) returns (i: nat)
    requires Inv(s, a) && c in s.cursors
    requires HasPage(s, c.index.id) && Top(s, c.index.id).epoch == c.index.epoch &&
             TierOf(Top(s, c.index.id).body) == Inner
    ensures var id := c.index.id;
            var child := FindChild(a.nodes[id].chain, c.key);
            && id in a.pub && Settled(s, a, id) && a.nodes[id].rng == c.range
            && child.Some? && i < |a.nodes[id].ents|
            && Entry(child.value.lo, child.value.index) == a.nodes[id].ents[i]
            && Inherit(child.value.hi, c.range.hi) == EndOf(a.nodes[id].ents, i, c.range.hi)
            && Contains(Range(child.value.lo, Inherit(child.value.hi, c.range.hi)), c.key)
            && ChildOk(s, a, id, i)
  {
    assert CursorOk(s, a, c);
    EpochTellsRange(s, a, c);
    TopTier(s, a, c.index.id);
    assert NodeOk(a.nodes[c.index.id]);
    i := ChildForKey(a.nodes[c.index.id], c.key);
    assert ChildOk(s, a, c.index.id, i);
  }

  lemma ChildCursor(s: State, a: Aux, c: Cursor, child: Child, i: nat)
    requires Domains(s, a)
    requires var id := c.index.id;
             && id in a.pub && Settled(s, a, id) && a.nodes[id].rng == c.range && i < |a.nodes[id].ents|
             && Entry(child.lo, child.index) == a.nodes[id].ents[i]
             && Inherit(child.hi, c.range.hi) == EndOf(a.nodes[id].ents, i, c.range.hi)
             && Contains(Range(child.lo, Inherit(child.hi, c.range.hi)), c.key)
             && ChildOk(s, a, id, i)
    ensures CursorOk(s, a, Descend(c, child, s.table[c.index.id]))
  {
  }

  lemma StaleView(s: State, a: Aux, s': State, c: Cursor)
    requires Domains(s, a) && Domains(s', a) && PublishedOk(s, a) && RootOk(s, a) && CursorOk(s, a, c) &&
             SamePages(s, s')
    requires c in s.cursors && Top(s, c.index.id).epoch != c.index.epoch
    ensures StaleOk(s', a, View(c, s.table[c.index.id]))
  {
    assert InStep(s, a, c.index.id);
  }

  lemma VisitInv(s: State, a: Aux, s': State, c: Cursor)
    requires Inv(s, a) && Visit(s, s', c)
    ensures Inv(s', a)
  {
    var id := c.index.id;
    SamePagesShape(s, a, s');
    OldLocals(s, a, s');
    assert CursorOk(s, a, c);
    TopTier(s, a, id);
    if Top(s, id).epoch != c.index.epoch {
      StaleView(s, a, s', c);
    } else if TierOf(Top(s, id).body) == Leaf {
      assert ViewOk(s', a, View(c, s.table[id]));
    } else {
      assert ViewOk(s', a, View(c, s.table[id]));
      var i := DescentFindsChild(s, a, c);
      var child := FindChild(a.nodes[id].chain, c.key).value;
      ChildCursor(s, a, c, child, i);
      OldCursors(s, a, s', Descend(c, child, s.table[id]));
    }
    SamePagesInv(s, a, s');
  }

  /** No visit is stuck: the table has the page, and an inner page that passes the epoch test
      has a child for the key. */
  lemma VisitEnabled(s: State, a: Aux, c: Cursor)
    requires Inv(s, a) && c in s.cursors
    ensures exists s' :: Visit(s, s', c)
  {
    assert CursorOk(s, a, c);
    var addr := s.table[c.index.id];
    var page := s.mem[addr];
    if page.epoch != c.index.epoch {
      assert Visit(s, s.(stale := s.stale + {View(c, addr)}), c);
    } else if TierOf(page.body) == Leaf {
      assert Visit(s, s.(views := s.views + {View(c, addr)}), c);
    } else {
      var i := DescentFindsChild(s, a, c);
      var child := FindChild(Chain(s.mem, addr), c.key).value;
      assert Visit(s, s.(views := s.views + {View(c, addr)}, cursors := s.cursors + {Descend(c, child, addr)}), c);
    }
  }

  // ----- The safe LSN

  lemma AdvanceSafeInv(s: State, a: Aux, s': State, lsn: Lsn)
    requires Inv(s, a) && AdvanceSafe(s, s', lsn)
    ensures Inv(s', a)
    ensures DataInv(s, a) ==> DataInv(s', a)
  {
    SamePagesShape(s, a, s');
    OldLocals(s, a, s');
    SamePagesInv(s, a, s');
    if DataInv(s, a) {
      SamePagesData(s, a, s');
    }
  }

  lemma SamePagesData(s: State, a: Aux, s': State)
    requires Domains(s, a) && Domains(s', a) && DataInv(s, a) && SamePages(s, s') && s.safe <= s'.safe
    ensures DataInv(s', a)
  {
    forall id | id in s'.table && a.nodes[id].level == 0
      ensures AnswersLikeMap(s', a, id)
    {
      assert AnswersLikeMap(s, a, id);
    }
  }
}
