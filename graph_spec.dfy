/**
 * Value-level definitions the workflow actions are specified against: which
 * links touch a set of operators, the de-duplication of an id list, the checks
 * of adding an operator or a link, the sequential effect of adding many of
 * them, and the edits of operator flags, ports and comments.
 */
module GraphSpec {
  import opened Types

  function Elems<T>(s: seq<T>): set<T> {
    set x | x in s
  }

  ghost predicate NoDuplicates<T>(s: seq<T>) {
    forall i, j :: 0 <= i < j < |s| ==> s[i] != s[j]
  }

  // ---------------------------------------------------------------------------
  // Links and the operators they touch

  predicate Touches(link: OperatorLink, ids: set<string>) {
    link.source.operatorID in ids || link.target.operatorID in ids
  }

  /** The ids of the links with an endpoint on one of the operators `ids`. */
  function Incident(links: map<string, OperatorLink>, ids: set<string>): (r: set<string>)
    ensures r <= links.Keys
    ensures forall lid :: lid in links ==> (lid in r <==> Touches(links[lid], ids))
  {
    set lid | lid in links && Touches(links[lid], ids)
  }

  /** Is there a link from `source` to `target`? */
  predicate HasLinkBetween(links: map<string, OperatorLink>, source: LogicalPort, target: LogicalPort) {
    exists lid :: lid in links && links[lid].source == source && links[lid].target == target
  }

  /** The pair of ports a link joins. */
  function Ends(links: map<string, OperatorLink>, lid: string): (LogicalPort, LogicalPort)
    requires lid in links
  {
    (links[lid].source, links[lid].target)
  }

  /** No two links join the same pair of ports. */
  ghost predicate EndpointsUnique(links: map<string, OperatorLink>) {
    forall a, b {:trigger Ends(links, a), Ends(links, b)} ::
      a in links && b in links && Ends(links, a) == Ends(links, b) ==> a == b
  }

  /** Removing links keeps the endpoint pairs distinct. */
  lemma EndpointsUniqueRemove(links: map<string, OperatorLink>, gone: set<string>)
    requires EndpointsUnique(links)
    ensures EndpointsUnique(links - gone)
  {
    var rest := links - gone;
    forall a, b | a in rest && b in rest && Ends(rest, a) == Ends(rest, b)
      ensures a == b
    {
      assert Ends(links, a) == Ends(rest, a) && Ends(links, b) == Ends(rest, b);
    }
  }

  /** Adding a link under a new id between ports no link joins keeps the pairs distinct. */
  lemma EndpointsUniqueAdd(links: map<string, OperatorLink>, link: OperatorLink)
    requires EndpointsUnique(links)
    requires link.linkID !in links && !HasLinkBetween(links, link.source, link.target)
    ensures EndpointsUnique(links[link.linkID := link])
  {
    var more := links[link.linkID := link];
    assert forall lid :: lid in links ==> Ends(links, lid) != (link.source, link.target);
    forall a, b | a in more && b in more && Ends(more, a) == Ends(more, b)
      ensures a == b
    {
      if a in links { assert Ends(more, a) == Ends(links, a); }
      if b in links { assert Ends(more, b) == Ends(links, b); }
    }
  }

  /** The links without the ones joining `source` to `target`. */
  function WithoutLinkBetween(links: map<string, OperatorLink>, source: LogicalPort, target: LogicalPort)
    : (r: map<string, OperatorLink>)
    ensures r.Keys <= links.Keys
    ensures !HasLinkBetween(r, source, target)
    ensures forall lid :: lid in r ==> r[lid] == links[lid]
    ensures !HasLinkBetween(links, source, target) ==> r == links
  {
    map lid | lid in links && !(links[lid].source == source && links[lid].target == target) :: links[lid]
  }

  /**
   * Deleting by endpoints undoes adding a link that passed its check: the
   * links are back as they were.
   */
  lemma AddThenDeleteLink(links: map<string, OperatorLink>, opIds: set<string>, link: OperatorLink,
                          accepted: OperatorLink -> bool)
    requires LinkCheck(links, opIds, link, accepted) == Pass
    ensures WithoutLinkBetween(links[link.linkID := link], link.source, link.target) == links
  {
    var more := links[link.linkID := link];
    var r := WithoutLinkBetween(more, link.source, link.target);
    assert forall lid :: lid in links ==> !(links[lid].source == link.source && links[lid].target == link.target);
    assert r.Keys == links.Keys;
  }

  // ---------------------------------------------------------------------------
  // De-duplication of an id list, keeping first occurrences in order
  // (what `Array.from(new Set(ids))` computes)

  function DedupFrom(s: seq<string>, seen: set<string>): seq<string> {
    if s == [] then []
    else if s[0] in seen then DedupFrom(s[1..], seen)
    else [s[0]] + DedupFrom(s[1..], seen + {s[0]})
  }

  function Dedup(s: seq<string>): seq<string> {
    DedupFrom(s, {})
  }

  lemma {:induction false} DedupFromElems(s: seq<string>, seen: set<string>)
    ensures Elems(DedupFrom(s, seen)) == Elems(s) - seen
  {
    if s != [] {
      DedupFromElems(s[1..], if s[0] in seen then seen else seen + {s[0]});
      assert Elems(s) == {s[0]} + Elems(s[1..]);
      if s[0] !in seen {
        var rest := DedupFrom(s[1..], seen + {s[0]});
        assert Elems([s[0]] + rest) == {s[0]} + Elems(rest);
      }
    }
  }

  lemma {:induction false} DedupFromProperties(s: seq<string>, seen: set<string>)
    ensures Elems(DedupFrom(s, seen)) == Elems(s) - seen
    ensures NoDuplicates(DedupFrom(s, seen))
  {
    DedupFromElems(s, seen);
    if s != [] {
      DedupFromProperties(s[1..], if s[0] in seen then seen else seen + {s[0]});
      if s[0] !in seen {
        var rest := DedupFrom(s[1..], seen + {s[0]});
        DedupFromElems(s[1..], seen + {s[0]});
        assert DedupFrom(s, seen) == [s[0]] + rest;
        forall i, j | 0 <= i < j < |[s[0]] + rest|
          ensures ([s[0]] + rest)[i] != ([s[0]] + rest)[j]
        {
          if i == 0 {
            assert ([s[0]] + rest)[j] == rest[j - 1];
            assert rest[j - 1] in Elems(rest);
          } else {
            assert ([s[0]] + rest)[i] == rest[i - 1];
            assert ([s[0]] + rest)[j] == rest[j - 1];
          }
        }
      }
    }
  }

  lemma {:induction false} DedupFromNoDuplicates(s: seq<string>, seen: set<string>)
    requires NoDuplicates(s) && Elems(s) !! seen
    ensures DedupFrom(s, seen) == s
  {
    if s != [] {
      assert s[0] in Elems(s);
      assert NoDuplicates(s[1..]) by {
        forall i, j | 0 <= i < j < |s[1..]| ensures s[1..][i] != s[1..][j] {
          assert s[1..][i] == s[i + 1] && s[1..][j] == s[j + 1];
        }
      }
      assert Elems(s[1..]) !! seen + {s[0]} by {
        forall x | x in Elems(s[1..]) ensures x !in seen + {s[0]} {
          var i :| 0 <= i < |s[1..]| && s[1..][i] == x;
          assert s[i + 1] == x;
        }
      }
      DedupFromNoDuplicates(s[1..], seen + {s[0]});
    }
  }

  /** The de-duplicated list holds the same ids, each once. */
  lemma DedupProperties(s: seq<string>)
    ensures Elems(Dedup(s)) == Elems(s)
    ensures NoDuplicates(Dedup(s))
  {
    DedupFromProperties(s, {});
  }

  /** De-duplicating twice is de-duplicating once. */
  lemma DedupIdempotent(s: seq<string>)
    ensures Dedup(Dedup(s)) == Dedup(s)
  {
    DedupProperties(s);
    DedupFromNoDuplicates(Dedup(s), {});
  }

  /** The index of the first id of `ids` that is not in `present`, or |ids|. */
  function FirstMissing(ids: seq<string>, present: set<string>): (k: nat)
    ensures k <= |ids|
    ensures forall i :: 0 <= i < k ==> ids[i] in present
    ensures k < |ids| ==> ids[k] !in present
  {
    if ids == [] || ids[0] !in present then 0 else 1 + FirstMissing(ids[1..], present)
  }

  /** FirstMissing is the only index with its two defining properties. */
  lemma {:induction false} FirstMissingIs(ids: seq<string>, present: set<string>, k: nat)
    requires k <= |ids|
    requires forall i :: 0 <= i < k ==> ids[i] in present
    requires k < |ids| ==> ids[k] !in present
    ensures FirstMissing(ids, present) == k
  {
    if k > 0 {
      FirstMissingIs(ids[1..], present, k - 1);
    }
  }

  /** What a batch over `ids` reports: the first id that is not present, if any. */
  function BatchOutcome(ids: seq<string>, present: set<string>): (r: Outcome)
    ensures r == Pass <==> Elems(ids) <= present
  {
    var k := FirstMissing(ids, present);
    assert k < |ids| ==> ids[k] in Elems(ids);
    if k == |ids| then Pass else Fail(OperatorNotFound(ids[k]))
  }

  /** The ids of a list of operators, in order. */
  function OperatorIdList(ops: seq<Operator>): (r: seq<string>)
    ensures |r| == |ops| && forall i :: 0 <= i < |ops| ==> r[i] == ops[i].operatorID
  {
    seq(|ops|, i requires 0 <= i < |ops| => ops[i].operatorID)
  }

  /** A kept list of ids: the members of `ids` that are in `keep`, in order. */
  function Filter(ids: seq<string>, keep: set<string>): (r: seq<string>)
    ensures Elems(r) == Elems(ids) * keep
  {
    if ids == [] then []
    else
      assert Elems(ids) == {ids[0]} + Elems(ids[1..]);
      var rest := Filter(ids[1..], keep);
      if ids[0] in keep then
        assert Elems([ids[0]] + rest) == {ids[0]} + Elems(rest);
        [ids[0]] + rest
      else rest
  }

  // ---------------------------------------------------------------------------
  // Operator flags and ports

  function WithFlag(op: Operator, flag: OperatorFlag, value: bool): (r: Operator)
    ensures r.operatorID == op.operatorID
  {
    match flag
    case Disabled => op.(isDisabled := value)
    case ReuseResult => op.(markedForReuse := value)
    case ViewResult => op.(viewResult := value)
  }

  /** The operators with `flag` set to `value` on those whose id is in `ids`. */
  function FlagAll(ops: map<string, Operator>, ids: set<string>, flag: OperatorFlag, value: bool)
    : (r: map<string, Operator>)
    ensures r.Keys == ops.Keys
    ensures forall id :: id in r ==> r[id].operatorID == ops[id].operatorID
  {
    map id | id in ops :: if id in ids then WithFlag(ops[id], flag, value) else ops[id]
  }

  /** Setting a flag twice to the same value is setting it once. */
  lemma WithFlagTwice(op: Operator, flag: OperatorFlag, value: bool)
    ensures WithFlag(WithFlag(op, flag, value), flag, value) == WithFlag(op, flag, value)
  {
    match flag
    case Disabled =>
    case ReuseResult =>
    case ViewResult =>
  }

  /** Flagging one more id of a list flags that operator on top of the rest. */
  lemma FlagAllSnoc(ops: map<string, Operator>, ids: seq<string>, i: nat, flag: OperatorFlag, value: bool,
                    flagged: map<string, Operator>)
    requires i < |ids| && ids[i] in ops
    requires flagged == FlagAll(ops, Elems(ids[..i]), flag, value)
    ensures ids[i] in flagged
    ensures flagged[ids[i] := WithFlag(flagged[ids[i]], flag, value)] == FlagAll(ops, Elems(ids[..i + 1]), flag, value)
  {
    ElemsSnoc(ids, i);
    FlagOneMore(ops, Elems(ids[..i]), ids[i], flag, value, flagged);
  }

  lemma ElemsSnoc<T>(s: seq<T>, i: nat)
    requires i < |s|
    ensures Elems(s[..i + 1]) == Elems(s[..i]) + {s[i]}
  {
    assert s[..i + 1] == s[..i] + [s[i]];
  }

  /** Flagging operator `id` on top of the flagged set `done` flags `done + {id}`. */
  lemma FlagOneMore(ops: map<string, Operator>, done: set<string>, id: string, flag: OperatorFlag, value: bool,
                    flagged: map<string, Operator>)
    requires id in ops && flagged == FlagAll(ops, done, flag, value)
    ensures id in flagged
    ensures flagged[id := WithFlag(flagged[id], flag, value)] == FlagAll(ops, done + {id}, flag, value)
  {
    var step := flagged[id := WithFlag(flagged[id], flag, value)];
    var after := FlagAll(ops, done + {id}, flag, value);
    WithFlagTwice(ops[id], flag, value);
    forall x | x in after
      ensures x in step && after[x] == step[x]
    {
    }
    assert after.Keys == step.Keys;
  }

  /** The ports of `op` in one direction. */
  function PortsOf(op: Operator, isInput: bool): seq<PortDescription> {
    if isInput then op.inputPorts else op.outputPorts
  }

  /** `op` with `port` appended to its input or its output ports. */
  function WithPort(op: Operator, port: PortDescription, isInput: bool): (r: Operator)
    ensures r.operatorID == op.operatorID
    ensures isInput ==> r.inputPorts == op.inputPorts + [port] && r.outputPorts == op.outputPorts
    ensures !isInput ==> r.outputPorts == op.outputPorts + [port] && r.inputPorts == op.inputPorts
  {
    if isInput then op.(inputPorts := op.inputPorts + [port])
    else op.(outputPorts := op.outputPorts + [port])
  }

  /** `op` without the last of its input or its output ports. */
  function WithoutLastPort(op: Operator, isInput: bool): (r: Operator)
    requires if isInput then op.inputPorts != [] else op.outputPorts != []
    ensures r.operatorID == op.operatorID
    ensures isInput ==> r.inputPorts + [op.inputPorts[|op.inputPorts| - 1]] == op.inputPorts
    ensures !isInput ==> r.outputPorts + [op.outputPorts[|op.outputPorts| - 1]] == op.outputPorts
  {
    if isInput then op.(inputPorts := op.inputPorts[..|op.inputPorts| - 1])
    else op.(outputPorts := op.outputPorts[..|op.outputPorts| - 1])
  }

  /**
   * What adding a dynamic port reports: the operator must exist and declare
   * dynamic ports in that direction, and an output port takes no
   * allowMultiInputs option.
   */
  function PortCheck(ops: map<string, Operator>, operatorID: string, isInput: bool,
                     allowMultiInputs: Option<bool>): (r: Outcome)
    ensures r == Pass <==>
      && operatorID in ops
      && (if isInput then ops[operatorID].dynamicInputPorts
          else ops[operatorID].dynamicOutputPorts && allowMultiInputs.None?)
  {
    if operatorID !in ops then Fail(OperatorNotFound(operatorID))
    else if isInput && !ops[operatorID].dynamicInputPorts then Fail(PortCapabilityViolation(operatorID))
    else if !isInput && !ops[operatorID].dynamicOutputPorts then Fail(PortCapabilityViolation(operatorID))
    else if !isInput && allowMultiInputs.Some? then Fail(InvalidPortOption)
    else Pass
  }

  /** Removing the last port undoes appending one. */
  lemma AddThenRemovePort(op: Operator, port: PortDescription, isInput: bool)
    ensures WithoutLastPort(WithPort(op, port, isInput), isInput) == op
  {
    if isInput {
      assert (op.inputPorts + [port])[..|op.inputPorts|] == op.inputPorts;
    } else {
      assert (op.outputPorts + [port])[..|op.outputPorts|] == op.outputPorts;
    }
  }

  predicate HasPort(op: Operator, portID: string) {
    (exists p :: p in op.inputPorts && p.portID == portID)
    || (exists p :: p in op.outputPorts && p.portID == portID)
  }

  // ---------------------------------------------------------------------------
  // Comments, keyed by (creatorID, creationTime)

  predicate IsComment(c: Comment, creatorID: int, creationTime: string) {
    c.creatorID == creatorID && c.creationTime == creationTime
  }

  predicate HasComment(cs: seq<Comment>, creatorID: int, creationTime: string) {
    exists c :: c in cs && IsComment(c, creatorID, creationTime)
  }

  /** The comments without the ones carrying the given key, in order. */
  function WithoutComment(cs: seq<Comment>, creatorID: int, creationTime: string): (r: seq<Comment>)
    ensures forall c :: c in r <==> c in cs && !IsComment(c, creatorID, creationTime)
    ensures |r| <= |cs|
    ensures HasComment(cs, creatorID, creationTime) ==> |r| < |cs|
  {
    if cs == [] then []
    else if IsComment(cs[0], creatorID, creationTime) then WithoutComment(cs[1..], creatorID, creationTime)
    else [cs[0]] + WithoutComment(cs[1..], creatorID, creationTime)
  }

  /** Deleting a comment whose key was new undoes appending it. */
  lemma {:induction false} AddThenDeleteComment(cs: seq<Comment>, c: Comment)
    requires !HasComment(cs, c.creatorID, c.creationTime)
    ensures WithoutComment(cs + [c], c.creatorID, c.creationTime) == cs
  {
    if cs != [] {
      assert !HasComment(cs[1..], c.creatorID, c.creationTime) by {
        forall x | x in cs[1..] ensures !IsComment(x, c.creatorID, c.creationTime) {
          assert x in cs;
        }
      }
      AddThenDeleteComment(cs[1..], c);
      assert (cs + [c])[1..] == cs[1..] + [c];
      assert cs[0] in cs;
    } else {
      assert [c][1..] == [];
    }
  }

  /** The comments with the content of the ones carrying the given key replaced. */
  function EditedComments(cs: seq<Comment>, creatorID: int, creationTime: string, newContent: string)
    : (r: seq<Comment>)
    ensures |r| == |cs|
    ensures forall i :: 0 <= i < |cs| ==>
      r[i] == (if IsComment(cs[i], creatorID, creationTime) then cs[i].(content := newContent) else cs[i])
  {
    seq(|cs|, i requires 0 <= i < |cs| =>
      if IsComment(cs[i], creatorID, creationTime) then cs[i].(content := newContent) else cs[i])
  }

  /** Editing a comment keeps every comment's key, so the set of keys is unchanged. */
  lemma EditKeepsKeys(cs: seq<Comment>, creatorID: int, creationTime: string, newContent: string,
                      id: int, time: string)
    ensures HasComment(EditedComments(cs, creatorID, creationTime, newContent), id, time)
        <==> HasComment(cs, id, time)
  {
    var r := EditedComments(cs, creatorID, creationTime, newContent);
    if HasComment(cs, id, time) {
      var c :| c in cs && IsComment(c, id, time);
      var i :| 0 <= i < |cs| && cs[i] == c;
      assert r[i] in r && IsComment(r[i], id, time);
    }
    if HasComment(r, id, time) {
      var c :| c in r && IsComment(c, id, time);
      var i :| 0 <= i < |r| && r[i] == c;
      assert cs[i] in cs && IsComment(cs[i], id, time);
    }
  }

  // ---------------------------------------------------------------------------
  // Adding operators and links, one at a time and in bulk. The bulk effects are
  // folds from the back, so that adding one more element is one unfolding.

  /** What adding `op` reports: the id must be new and the type known. */
  function OperatorCheck(ops: map<string, Operator>, op: Operator, typeExists: string -> bool): (r: Outcome)
    ensures r == Pass <==> op.operatorID !in ops && typeExists(op.operatorType)
  {
    if op.operatorID in ops then Fail(OperatorAlreadyExists(op.operatorID))
    else if !typeExists(op.operatorType) then Fail(UnknownOperatorType(op.operatorType))
    else Pass
  }

  /**
   * What adding `link` reports: neither its id nor its pair of endpoints may be
   * in use, both endpoint operators must exist and the external validator must
   * accept it.
   */
  function LinkCheck(links: map<string, OperatorLink>, opIds: set<string>, link: OperatorLink,
                     accepted: OperatorLink -> bool): (r: Outcome)
    ensures r == Pass <==>
      && link.linkID !in links
      && !HasLinkBetween(links, link.source, link.target)
      && link.source.operatorID in opIds && link.target.operatorID in opIds
      && accepted(link)
  {
    if link.linkID in links || HasLinkBetween(links, link.source, link.target) then
      Fail(LinkAlreadyExists(link.linkID))
    else if !(link.source.operatorID in opIds && link.target.operatorID in opIds && accepted(link)) then
      Fail(LinkInvalid(link.linkID))
    else Pass
  }

  function OperatorIds(pairs: seq<OperatorAndPosition>): set<string> {
    set p | p in pairs :: p.op.operatorID
  }

  lemma OperatorIdsSnoc(pairs: seq<OperatorAndPosition>, p: OperatorAndPosition)
    ensures OperatorIds(pairs + [p]) == OperatorIds(pairs) + {p.op.operatorID}
  {
    assert forall q :: q in pairs + [p] <==> q in pairs || q == p;
  }

  /** The operators after adding those of `pairs`, in order. */
  function AddOperators(ops: map<string, Operator>, pairs: seq<OperatorAndPosition>): (r: map<string, Operator>)
    ensures r.Keys == ops.Keys + OperatorIds(pairs)
    decreases |pairs|
  {
    if pairs == [] then ops
    else
      var init, last := pairs[..|pairs| - 1], pairs[|pairs| - 1];
      OperatorIdsSnoc(init, last);
      assert init + [last] == pairs;
      AddOperators(ops, init)[last.op.operatorID := last.op]
  }

  /** The position map after adding the positions of `pairs`, in order. */
  function AddPositions(positions: map<string, Point>, pairs: seq<OperatorAndPosition>): (r: map<string, Point>)
    ensures r.Keys == positions.Keys + OperatorIds(pairs)
    decreases |pairs|
  {
    if pairs == [] then positions
    else
      var init, last := pairs[..|pairs| - 1], pairs[|pairs| - 1];
      OperatorIdsSnoc(init, last);
      assert init + [last] == pairs;
      AddPositions(positions, init)[last.op.operatorID := last.pos]
  }

  lemma AddPositionsSnoc(positions: map<string, Point>, pairs: seq<OperatorAndPosition>, i: nat)
    requires i < |pairs|
    ensures AddPositions(positions, pairs[..i + 1])
         == AddPositions(positions, pairs[..i])[pairs[i].op.operatorID := pairs[i].pos]
  {
    var next := pairs[..i + 1];
    assert next[..|next| - 1] == pairs[..i] && next[|next| - 1] == pairs[i];
  }

  /** Every operator of `pairs`, added in order, passes its check. */
  predicate OperatorsAddable(ops: map<string, Operator>, pairs: seq<OperatorAndPosition>,
                             typeExists: string -> bool)
    decreases |pairs|
  {
    pairs == [] ||
    (OperatorsAddable(ops, pairs[..|pairs| - 1], typeExists) &&
     OperatorCheck(AddOperators(ops, pairs[..|pairs| - 1]), pairs[|pairs| - 1].op, typeExists) == Pass)
  }

  lemma {:induction false} OperatorsAddablePrefix(ops: map<string, Operator>, pairs: seq<OperatorAndPosition>,
                                                   typeExists: string -> bool, k: nat)
    requires OperatorsAddable(ops, pairs, typeExists) && k <= |pairs|
    ensures OperatorsAddable(ops, pairs[..k], typeExists)
    decreases |pairs|
  {
    if k < |pairs| {
      var init := pairs[..|pairs| - 1];
      OperatorsAddablePrefix(ops, init, typeExists, k);
      assert init[..k] == pairs[..k];
    } else {
      assert pairs[..k] == pairs;
    }
  }

  /**
   * The index of the first operator of `pairs` whose check fails once the ones
   * before it are added, searching from `i`; |pairs| when all pass.
   */
  function FirstRejectedOperator(ops: map<string, Operator>, pairs: seq<OperatorAndPosition>,
                                 typeExists: string -> bool, i: nat): (k: nat)
    requires i <= |pairs| && OperatorsAddable(ops, pairs[..i], typeExists)
    ensures i <= k <= |pairs|
    ensures OperatorsAddable(ops, pairs[..k], typeExists)
    ensures k < |pairs| ==> OperatorCheck(AddOperators(ops, pairs[..k]), pairs[k].op, typeExists) != Pass
    decreases |pairs| - i
  {
    if i == |pairs| || OperatorCheck(AddOperators(ops, pairs[..i]), pairs[i].op, typeExists) != Pass then i
    else
      assert pairs[..i + 1][..i] == pairs[..i];
      FirstRejectedOperator(ops, pairs, typeExists, i + 1)
  }

  /** One more accepted operator extends the accepted prefix by one. */
  lemma OperatorsAddableSnoc(ops: map<string, Operator>, pairs: seq<OperatorAndPosition>,
                             typeExists: string -> bool, i: nat)
    requires i < |pairs| && OperatorsAddable(ops, pairs[..i], typeExists)
    requires OperatorCheck(AddOperators(ops, pairs[..i]), pairs[i].op, typeExists) == Pass
    ensures OperatorsAddable(ops, pairs[..i + 1], typeExists)
    ensures AddOperators(ops, pairs[..i + 1]) == AddOperators(ops, pairs[..i])[pairs[i].op.operatorID := pairs[i].op]
    ensures FirstRejectedOperator(ops, pairs, typeExists, i) == FirstRejectedOperator(ops, pairs, typeExists, i + 1)
  {
    OperatorsAddableOneMore(ops, pairs, typeExists, i);
    AddOperatorsSnoc(ops, pairs, i);
    FirstRejectedOperatorStep(ops, pairs, typeExists, i);
  }

  lemma OperatorsAddableOneMore(ops: map<string, Operator>, pairs: seq<OperatorAndPosition>,
                                typeExists: string -> bool, i: nat)
    requires i < |pairs| && OperatorsAddable(ops, pairs[..i], typeExists)
    requires OperatorCheck(AddOperators(ops, pairs[..i]), pairs[i].op, typeExists) == Pass
    ensures OperatorsAddable(ops, pairs[..i + 1], typeExists)
  {
    var next := pairs[..i + 1];
    assert next[..|next| - 1] == pairs[..i] && next[|next| - 1] == pairs[i];
  }

  lemma AddOperatorsSnoc(ops: map<string, Operator>, pairs: seq<OperatorAndPosition>, i: nat)
    requires i < |pairs|
    ensures AddOperators(ops, pairs[..i + 1]) == AddOperators(ops, pairs[..i])[pairs[i].op.operatorID := pairs[i].op]
  {
    var next := pairs[..i + 1];
    assert next[..|next| - 1] == pairs[..i] && next[|next| - 1] == pairs[i];
  }

  lemma FirstRejectedOperatorStep(ops: map<string, Operator>, pairs: seq<OperatorAndPosition>,
                                  typeExists: string -> bool, i: nat)
    requires i < |pairs| && OperatorsAddable(ops, pairs[..i], typeExists)
    requires OperatorCheck(AddOperators(ops, pairs[..i]), pairs[i].op, typeExists) == Pass
    requires OperatorsAddable(ops, pairs[..i + 1], typeExists)
    ensures FirstRejectedOperator(ops, pairs, typeExists, i) == FirstRejectedOperator(ops, pairs, typeExists, i + 1)
  {
  }

  /** All operators are added exactly when none is rejected. */
  lemma AllOperatorsAddable(ops: map<string, Operator>, pairs: seq<OperatorAndPosition>, typeExists: string -> bool)
    ensures OperatorsAddable(ops, pairs, typeExists) <==> FirstRejectedOperator(ops, pairs, typeExists, 0) == |pairs|
  {
    assert pairs[..0] == [];
    var k := FirstRejectedOperator(ops, pairs, typeExists, 0);
    if k == |pairs| {
      assert pairs[..k] == pairs;
    } else {
      RejectedOperatorBlocks(ops, pairs, typeExists, k);
    }
  }

  /** A rejected operator makes the whole list not addable. */
  lemma RejectedOperatorBlocks(ops: map<string, Operator>, pairs: seq<OperatorAndPosition>,
                               typeExists: string -> bool, k: nat)
    requires k < |pairs| && OperatorCheck(AddOperators(ops, pairs[..k]), pairs[k].op, typeExists) != Pass
    ensures !OperatorsAddable(ops, pairs, typeExists)
  {
    var next := pairs[..k + 1];
    assert next[..|next| - 1] == pairs[..k] && next[|next| - 1] == pairs[k];
    assert !OperatorsAddable(ops, next, typeExists);
    if OperatorsAddable(ops, pairs, typeExists) {
      OperatorsAddablePrefix(ops, pairs, typeExists, k + 1);
    }
  }

  function LinkIds(ls: seq<OperatorLink>): set<string> {
    set l | l in ls :: l.linkID
  }

  lemma LinkIdsSnoc(ls: seq<OperatorLink>, l: OperatorLink)
    ensures LinkIds(ls + [l]) == LinkIds(ls) + {l.linkID}
  {
    assert forall q :: q in ls + [l] <==> q in ls || q == l;
  }

  /** The links after adding those of `ls`, in order. */
  function AddLinks(links: map<string, OperatorLink>, ls: seq<OperatorLink>): (r: map<string, OperatorLink>)
    ensures r.Keys == links.Keys + LinkIds(ls)
    decreases |ls|
  {
    if ls == [] then links
    else
      var init, last := ls[..|ls| - 1], ls[|ls| - 1];
      LinkIdsSnoc(init, last);
      assert init + [last] == ls;
      AddLinks(links, init)[last.linkID := last]
  }

  /** Every link of `ls`, added in order, passes its check. */
  predicate LinksAddable(links: map<string, OperatorLink>, opIds: set<string>, ls: seq<OperatorLink>,
                         accepted: OperatorLink -> bool)
    decreases |ls|
  {
    ls == [] ||
    (LinksAddable(links, opIds, ls[..|ls| - 1], accepted) &&
     LinkCheck(AddLinks(links, ls[..|ls| - 1]), opIds, ls[|ls| - 1], accepted) == Pass)
  }

  lemma {:induction false} LinksAddablePrefix(links: map<string, OperatorLink>, opIds: set<string>,
                                               ls: seq<OperatorLink>, accepted: OperatorLink -> bool, k: nat)
    requires LinksAddable(links, opIds, ls, accepted) && k <= |ls|
    ensures LinksAddable(links, opIds, ls[..k], accepted)
    decreases |ls|
  {
    if k < |ls| {
      var init := ls[..|ls| - 1];
      LinksAddablePrefix(links, opIds, init, accepted, k);
      assert init[..k] == ls[..k];
    } else {
      assert ls[..k] == ls;
    }
  }

  /** The index of the first link of `ls` whose check fails, searching from `i`; |ls| when all pass. */
  function FirstRejectedLink(links: map<string, OperatorLink>, opIds: set<string>, ls: seq<OperatorLink>,
                             accepted: OperatorLink -> bool, i: nat): (k: nat)
    requires i <= |ls| && LinksAddable(links, opIds, ls[..i], accepted)
    ensures i <= k <= |ls|
    ensures LinksAddable(links, opIds, ls[..k], accepted)
    ensures k < |ls| ==> LinkCheck(AddLinks(links, ls[..k]), opIds, ls[k], accepted) != Pass
    decreases |ls| - i
  {
    if i == |ls| || LinkCheck(AddLinks(links, ls[..i]), opIds, ls[i], accepted) != Pass then i
    else
      assert ls[..i + 1][..i] == ls[..i];
      FirstRejectedLink(links, opIds, ls, accepted, i + 1)
  }

  /** One more accepted link extends the accepted prefix by one. */
  lemma LinksAddableSnoc(links: map<string, OperatorLink>, opIds: set<string>, ls: seq<OperatorLink>,
                         accepted: OperatorLink -> bool, j: nat)
    requires j < |ls| && LinksAddable(links, opIds, ls[..j], accepted)
    requires LinkCheck(AddLinks(links, ls[..j]), opIds, ls[j], accepted) == Pass
    ensures LinksAddable(links, opIds, ls[..j + 1], accepted)
    ensures AddLinks(links, ls[..j + 1]) == AddLinks(links, ls[..j])[ls[j].linkID := ls[j]]
    ensures FirstRejectedLink(links, opIds, ls, accepted, j) == FirstRejectedLink(links, opIds, ls, accepted, j + 1)
  {
    LinksAddableOneMore(links, opIds, ls, accepted, j);
    AddLinksSnoc(links, ls, j);
    FirstRejectedLinkStep(links, opIds, ls, accepted, j);
  }

  lemma LinksAddableOneMore(links: map<string, OperatorLink>, opIds: set<string>, ls: seq<OperatorLink>,
                            accepted: OperatorLink -> bool, j: nat)
    requires j < |ls| && LinksAddable(links, opIds, ls[..j], accepted)
    requires LinkCheck(AddLinks(links, ls[..j]), opIds, ls[j], accepted) == Pass
    ensures LinksAddable(links, opIds, ls[..j + 1], accepted)
  {
    var next := ls[..j + 1];
    assert next[..|next| - 1] == ls[..j] && next[|next| - 1] == ls[j];
  }

  lemma AddLinksSnoc(links: map<string, OperatorLink>, ls: seq<OperatorLink>, j: nat)
    requires j < |ls|
    ensures AddLinks(links, ls[..j + 1]) == AddLinks(links, ls[..j])[ls[j].linkID := ls[j]]
  {
    var next := ls[..j + 1];
    assert next[..|next| - 1] == ls[..j] && next[|next| - 1] == ls[j];
  }

  lemma FirstRejectedLinkStep(links: map<string, OperatorLink>, opIds: set<string>, ls: seq<OperatorLink>,
                              accepted: OperatorLink -> bool, j: nat)
    requires j < |ls| && LinksAddable(links, opIds, ls[..j], accepted)
    requires LinkCheck(AddLinks(links, ls[..j]), opIds, ls[j], accepted) == Pass
    requires LinksAddable(links, opIds, ls[..j + 1], accepted)
    ensures FirstRejectedLink(links, opIds, ls, accepted, j) == FirstRejectedLink(links, opIds, ls, accepted, j + 1)
  {
  }

  /** All links are added exactly when none is rejected. */
  lemma AllLinksAddable(links: map<string, OperatorLink>, opIds: set<string>, ls: seq<OperatorLink>,
                        accepted: OperatorLink -> bool)
    ensures LinksAddable(links, opIds, ls, accepted) <==> FirstRejectedLink(links, opIds, ls, accepted, 0) == |ls|
  {
    assert ls[..0] == [];
    var k := FirstRejectedLink(links, opIds, ls, accepted, 0);
    if k == |ls| {
      assert ls[..k] == ls;
    } else {
      RejectedLinkBlocks(links, opIds, ls, accepted, k);
    }
  }

  /** A rejected link makes the whole list not addable. */
  lemma RejectedLinkBlocks(links: map<string, OperatorLink>, opIds: set<string>, ls: seq<OperatorLink>,
                           accepted: OperatorLink -> bool, k: nat)
    requires k < |ls| && LinkCheck(AddLinks(links, ls[..k]), opIds, ls[k], accepted) != Pass
    ensures !LinksAddable(links, opIds, ls, accepted)
  {
    var next := ls[..k + 1];
    assert next[..|next| - 1] == ls[..k] && next[|next| - 1] == ls[k];
    assert !LinksAddable(links, opIds, next, accepted);
    if LinksAddable(links, opIds, ls, accepted) {
      LinksAddablePrefix(links, opIds, ls, accepted, k + 1);
    }
  }

  function CommentBoxIds(bs: seq<CommentBox>): set<string> {
    set b | b in bs :: b.commentBoxID
  }

  /** The comment boxes after adding those of `bs`, in order; a box replaces one of the same id. */
  function AddCommentBoxes(boxes: map<string, CommentBox>, bs: seq<CommentBox>): (r: map<string, CommentBox>)
    ensures r.Keys == boxes.Keys + CommentBoxIds(bs)
    decreases |bs|
  {
    if bs == [] then boxes
    else
      var init, last := bs[..|bs| - 1], bs[|bs| - 1];
      assert forall q :: q in init + [last] <==> q in init || q == last;
      assert init + [last] == bs;
      AddCommentBoxes(boxes, init)[last.commentBoxID := last]
  }

  /** What adding a list of operators reports, and the operators and positions it leaves. */
  datatype OperatorsAdded = OperatorsAdded(outcome: Outcome, operators: map<string, Operator>, positions: map<string, Point>)

  /**
   * Adds the operators of `pairs` one by one, each with its position, up to
   * the first one whose check fails.
   */
  function AddOperatorsPhase(ops: map<string, Operator>, positions: map<string, Point>,
                             pairs: seq<OperatorAndPosition>, typeExists: string -> bool): (r: OperatorsAdded)
    ensures r.outcome.Pass? <==> OperatorsAddable(ops, pairs, typeExists)
    ensures r.outcome.Pass? ==> r.operators == AddOperators(ops, pairs) && r.positions == AddPositions(positions, pairs)
  {
    assert pairs[..0] == [];
    AllOperatorsAddable(ops, pairs, typeExists);
    var k := FirstRejectedOperator(ops, pairs, typeExists, 0);
    var ops1 := AddOperators(ops, pairs[..k]);
    var positions1 := AddPositions(positions, pairs[..k]);
    if k < |pairs| then OperatorsAdded(OperatorCheck(ops1, pairs[k].op, typeExists), ops1, positions1)
    else
      assert pairs[..k] == pairs;
      OperatorsAdded(Pass, ops1, positions1)
  }

  /** What adding a list of links reports, and the links it leaves. */
  datatype LinksAdded = LinksAdded(outcome: Outcome, links: map<string, OperatorLink>)

  /** Adds the links of `ls` one by one, up to the first one whose check fails. */
  function AddLinksPhase(links: map<string, OperatorLink>, opIds: set<string>, ls: seq<OperatorLink>,
                         accepted: OperatorLink -> bool): (r: LinksAdded)
    ensures r.outcome.Pass? <==> LinksAddable(links, opIds, ls, accepted)
    ensures r.outcome.Pass? ==> r.links == AddLinks(links, ls)
  {
    assert ls[..0] == [];
    AllLinksAddable(links, opIds, ls, accepted);
    var j := FirstRejectedLink(links, opIds, ls, accepted, 0);
    var links1 := AddLinks(links, ls[..j]);
    if j < |ls| then LinksAdded(LinkCheck(links1, opIds, ls[j], accepted), links1)
    else
      assert ls[..j] == ls;
      LinksAdded(Pass, links1)
  }

  /** What a bulk add reports, and the operators, positions, links and comment boxes it leaves. */
  datatype BulkResult = BulkResult(
    outcome: Outcome,
    operators: map<string, Operator>,
    positions: map<string, Point>,
    links: map<string, OperatorLink>,
    commentBoxes: map<string, CommentBox>)

  /**
   * The effect of adding the operators of `pairs`, then the links of `ls`, then
   * the comment boxes of `bs`, one by one: the first operator or link whose
   * check fails ends the batch, and what was added before it stays.
   */
  function BulkAdd(ops: map<string, Operator>, positions: map<string, Point>, links: map<string, OperatorLink>,
                   boxes: map<string, CommentBox>, pairs: seq<OperatorAndPosition>, ls: seq<OperatorLink>,
                   bs: seq<CommentBox>, typeExists: string -> bool, accepted: OperatorLink -> bool): (r: BulkResult)
    ensures r.outcome.Pass? <==> && OperatorsAddable(ops, pairs, typeExists)
                                 && LinksAddable(links, AddOperators(ops, pairs).Keys, ls, accepted)
    ensures r.outcome.Pass? ==> && r.operators == AddOperators(ops, pairs)
                                && r.positions == AddPositions(positions, pairs)
                                && r.links == AddLinks(links, ls)
                                && r.commentBoxes == AddCommentBoxes(boxes, bs)
    ensures r.outcome.Fail? ==> r.commentBoxes == boxes
    ensures !OperatorsAddable(ops, pairs, typeExists) ==> r.links == links
  {
    var o := AddOperatorsPhase(ops, positions, pairs, typeExists);
    if o.outcome.Fail? then BulkResult(o.outcome, o.operators, o.positions, links, boxes)
    else
      var l := AddLinksPhase(links, o.operators.Keys, ls, accepted);
      if l.outcome.Fail? then BulkResult(l.outcome, o.operators, o.positions, l.links, boxes)
      else BulkResult(Pass, o.operators, o.positions, l.links, AddCommentBoxes(boxes, bs))
  }
}
