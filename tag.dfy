/** The state engine of the `ui-tag` custom element, without its DOM.

    The element keeps a pool of available tag ids (`tags`), the ids confirmed
    in this session (`added`), the ids its caller declared as assigned
    (`assignedIds`) and one candidate record under edit. Attributes are its
    interface: each write of an observed attribute runs the change callback,
    which ends by re-gating the confirm and cancel buttons. What
    `document.querySelector` makes of the `data-target` selector is the
    `Target` value `target`.
 */
module TagElement {
  import opened TagIds
  import opened Pool

  /** The element's `Types` enum. */
  datatype TagType = Undefined | Unassigned | Blocked | Duplicate | Related | Depends | Required
  {
    function Value(): string
    {
      match this
      case Undefined => "undefined"
      case Unassigned => "unassigned"
      case Blocked => "blocked"
      case Duplicate => "duplicate"
      case Related => "related"
      case Depends => "depends"
      case Required => "required"
    }
  }

  /** The record under edit. Its type is whatever text the type input holds
      (the list of types only suggests values), so it is a string;
      `Undefined.Value()` is the "nothing chosen yet" sentinel. */
  datatype Candidate = Candidate(id: string, name: string, tagType: string)

  const EmptyCandidate := Candidate("", "", Undefined.Value())

  /** A candidate the confirm button accepts: an id, and a type other than
      the sentinel. */
  predicate Ready(c: Candidate)
  {
    c.id != "" && c.tagType != Undefined.Value()
  }

  datatype Action = ConfirmAction | CancelAction

  /** The element's buttons, in the order they are appended. */
  const Buttons: seq<Action> := [ConfirmAction, CancelAction]

  /** The loop over the buttons at the end of the change callback: each one is
      enabled exactly when the candidate is Ready, and the cancel button is
      enabled again whatever the candidate. */
  method Gate(buttons: seq<Action>, c: Candidate) returns (enabled: seq<bool>)
    ensures |enabled| == |buttons|
    ensures forall i :: 0 <= i < |buttons| ==>
              (enabled[i] <==> buttons[i] == CancelAction || Ready(c))
  {
    enabled := [];
    for i := 0 to |buttons|
      invariant |enabled| == i
      invariant forall k :: 0 <= k < i ==>
                  (enabled[k] <==> buttons[k] == CancelAction || Ready(c))
    {
      var on := Ready(c);
      if buttons[i] == CancelAction {
        on := true;
      }
      enabled := enabled + [on];
    }
  }

  /** The attributes that mirror the candidate: data-id, data-name, data-type. */
  datatype Field = IdField | NameField | TypeField

  /** What `document.querySelector(this.target)` does: it throws for a
      selector that is empty (the initial target) or not valid, returns null
      when nothing matches, and otherwise finds the container. */
  datatype Target = Invalid | Missing | Found

  /** A write of an observed attribute, with the value the callback reads.
      JSON payloads arrive parsed: serialising and parsing a list of strings
      gives the same list back. */
  datatype Change =
    | TagsChanged(pool: seq<string>)
    | AssignedChanged(ids: seq<string>)
    | FieldChanged(field: Field)
    | TargetChanged(target: Target)

  /** How deep the callback a write runs can re-enter itself: a
      `data-assigned` write publishes the pool for each listed id, a
      `data-tags` write (and every other one) re-enters nothing. */
  function Depth(c: Change): nat
  {
    if c.AssignedChanged? then 1 else 0
  }

  /** The candidate attributes a write makes present on the element. */
  function Mirrors(c: Change): set<Field>
  {
    if c.FieldChanged? then {c.field} else {}
  }

  /** Whether the callback for write `c` stops at a throwing target
      selector before it re-gates the buttons. */
  predicate Aborts(c: Change, t: Target)
  {
    c.AssignedChanged? && c.ids != [] && t == Invalid
  }

  /** The pool after the `data-assigned` branch: every listed id filtered
      out, unless the target selector throws at the first one. */
  function Assigned(pool: seq<string>, ids: seq<string>, t: Target): (r: seq<string>)
    ensures t != Invalid || ids == [] ==> forall x :: x in ids ==> x !in r
    ensures t == Invalid && ids != [] ==> r == pool
  {
    WithoutAllEffect(pool, ids);
    if ids != [] && t == Invalid then pool else WithoutAll(pool, ids)
  }

  class Tag {
    var tags: seq<string>
    var added: seq<string>
    var assignedIds: seq<string>
    var candidate: Candidate
    var target: Target
    /** Which candidate attributes are currently present; removing an absent
        attribute runs no callback. */
    var mirrored: set<Field>
    var confirmEnabled: bool
    var cancelEnabled: bool

    /** A set candidate field is always mirrored by its attribute. */
    ghost predicate Tracked(fields: set<Field>)
      reads this
    {
      && (candidate.id != "" ==> IdField in fields)
      && (candidate.tagType != Undefined.Value() ==> TypeField in fields)
    }

    ghost predicate Valid()
      reads this
    {
      Tracked(mirrored) && cancelEnabled
    }

    /** Empty lists, an empty candidate, the empty target selector; the
        buttons are created enabled. */
    constructor ()
      ensures Valid()
      ensures tags == [] && added == [] && assignedIds == []
      ensures candidate == EmptyCandidate && target == Invalid && mirrored == {}
      ensures confirmEnabled && cancelEnabled
    {
      tags, added, assignedIds := [], [], [];
      candidate := EmptyCandidate;
      target := Invalid;
      mirrored := {};
      confirmEnabled, cancelEnabled := true, true;
    }

    /** The tail of the change callback. */
    method RefreshGating()
      modifies this`confirmEnabled, this`cancelEnabled
      ensures confirmEnabled == Ready(candidate) && cancelEnabled
    {
      var enabled := Gate(Buttons, candidate);
      confirmEnabled, cancelEnabled := enabled[0], enabled[1];
    }

    /** `attributeChangedCallback`: `data-tags` replaces the pool,
        `data-assigned` replaces the declared list and moves each listed id out
        of the pool, `data-target` replaces the target; the callback ends by
        re-gating the buttons. When the target selector throws, the first
        listed id aborts the callback: the pool and the buttons stay as they
        were (the browser reports the exception; `setAttribute` returns). */
    method AttributeChanged(c: Change)
      requires Valid()
      modifies this
      ensures Valid()
      ensures tags == (if c.TagsChanged? then c.pool
                       else if c.AssignedChanged? then Assigned(old(tags), c.ids, old(target))
                       else old(tags))
      ensures assignedIds == (if c.AssignedChanged? then c.ids else old(assignedIds))
      ensures target == (if c.TargetChanged? then c.target else old(target))
      ensures unchanged(this`added, this`candidate, this`mirrored)
      ensures confirmEnabled == (if Aborts(c, old(target)) then old(confirmEnabled) else Ready(candidate))
      decreases Depth(c), 3
    {
      if c.TagsChanged? {
        tags := c.pool;
      } else if c.AssignedChanged? {
        var thrown := AssignListed(c.ids);
        if thrown {
          return;
        }
      } else if c.TargetChanged? {
        target := c.target;
      }
      RefreshGating();
    }

    /** The `data-assigned` branch of the callback: the declared list is
        replaced, and each listed id goes through the assign move and is then
        filtered out of the pool, so it ends up out of the pool whether or not
        the target finds a container. A throwing target selector stops the
        loop at the first id. The button state is left to the callback's
        tail. */
    method AssignListed(ids: seq<string>) returns (thrown: bool)
      requires Valid()
      modifies this
      ensures Valid()
      ensures thrown <==> ids != [] && old(target) == Invalid
      ensures tags == (if thrown then old(tags) else WithoutAll(old(tags), ids)) && assignedIds == ids
      ensures unchanged(this`added, this`candidate, this`target, this`mirrored)
      ensures thrown ==> unchanged(this`confirmEnabled)
      decreases 1, 2
    {
      assignedIds := ids;
      thrown := false;
      for i := 0 to |ids|
        invariant Valid()
        invariant i > 0 ==> target != Invalid
        invariant i == 0 ==> unchanged(this`confirmEnabled)
        invariant tags == WithoutAll(old(tags), ids[..i]) && assignedIds == ids
        invariant unchanged(this`added, this`candidate, this`target, this`mirrored)
      {
        // the type drawn at random for this id only feeds the rendered tag
        thrown := AssignMove(ids[i]);
        if thrown {
          assert i == 0;
          return;
        }
        tags := Without(tags, ids[i]);
        assert ids[..i + 1][..i] == ids[..i];
      }
      assert ids[..|ids|] == ids;
    }

    /** `setAttribute`: the attribute becomes present and the callback runs. */
    method SetAttribute(c: Change)
      requires Tracked(mirrored + Mirrors(c)) && cancelEnabled
      modifies this
      ensures Valid()
      ensures mirrored == old(mirrored) + Mirrors(c)
      ensures tags == (if c.TagsChanged? then c.pool
                       else if c.AssignedChanged? then Assigned(old(tags), c.ids, old(target))
                       else old(tags))
      ensures assignedIds == (if c.AssignedChanged? then c.ids else old(assignedIds))
      ensures target == (if c.TargetChanged? then c.target else old(target))
      ensures unchanged(this`added, this`candidate)
      ensures confirmEnabled == (if Aborts(c, old(target)) then old(confirmEnabled) else Ready(candidate))
      decreases Depth(c), 4
    {
      mirrored := mirrored + Mirrors(c);
      AttributeChanged(c);
    }

    /** `removeAttribute` of a candidate attribute: the callback runs only if
        the attribute was present. */
    method RemoveAttribute(f: Field)
      requires Tracked(mirrored - {f}) && cancelEnabled
      modifies this
      ensures Valid()
      ensures mirrored == old(mirrored) - {f}
      ensures unchanged(this`tags, this`added, this`assignedIds, this`candidate, this`target)
      ensures confirmEnabled == (if f in old(mirrored) then Ready(candidate) else old(confirmEnabled))
    {
      if f in mirrored {
        mirrored := mirrored - {f};
        AttributeChanged(FieldChanged(f));
      }
    }

    /** Typing in the id input: the id is the text, the name is the text
        without its first `#`, and both are mirrored to attributes. */
    method EditId(value: string)
      requires Valid()
      modifies this
      ensures Valid()
      ensures candidate == Candidate(value, RemoveFirst(value, '#'), old(candidate.tagType))
      ensures mirrored == old(mirrored) + {IdField, NameField}
      ensures unchanged(this`tags, this`added, this`assignedIds, this`target)
      ensures confirmEnabled == Ready(candidate)
    {
      candidate := candidate.(id := value, name := RemoveFirst(value, '#'));
      SetAttribute(FieldChanged(IdField));
      SetAttribute(FieldChanged(NameField));
    }

    /** Typing in the type input: the type is the text, mirrored to its
        attribute. */
    method EditType(value: string)
      requires Valid()
      modifies this
      ensures Valid()
      ensures candidate == old(candidate).(tagType := value)
      ensures mirrored == old(mirrored) + {TypeField}
      ensures unchanged(this`tags, this`added, this`assignedIds, this`target)
      ensures confirmEnabled == Ready(candidate)
    {
      candidate := candidate.(tagType := value);
      SetAttribute(FieldChanged(TypeField));
    }

    /** `setAttribute('data-tags', JSON.stringify(this.tags))`: the callback
        parses the same list back and re-gates the buttons. */
    method PublishTags()
      requires Valid()
      modifies this
      ensures Valid()
      ensures unchanged(this`tags, this`added, this`assignedIds, this`candidate, this`target, this`mirrored)
      ensures confirmEnabled == Ready(candidate)
      decreases 0, 5
    {
      ghost var before := mirrored;
      SetAttribute(TagsChanged(tags));
      assert mirrored == before + {} == before;
    }

    /** The state part of `addTagToTarget`: a throwing target selector
        aborts it (`thrown`), a target that finds nothing makes it return;
        otherwise the id leaves the pool and the pool is published. The name
        and type only feed the rendered tag. */
    method AssignMove(id: string) returns (thrown: bool)
      requires Valid()
      modifies this
      ensures Valid()
      ensures thrown <==> old(target) == Invalid
      ensures old(target) != Found ==> unchanged(this)
      ensures old(target) == Found ==> tags == Without(old(tags), id) && confirmEnabled == Ready(candidate)
      ensures unchanged(this`added, this`assignedIds, this`candidate, this`target, this`mirrored)
      decreases 1, 1
    {
      thrown := target == Invalid;
      if target != Found {
        return;
      }
      tags := Without(tags, id);
      PublishTags();
    }

    /** The cancel button, and the tail of the confirm button: the candidate
        is reset and its attributes removed; the lists are untouched. Every
        removal of a present attribute runs the callback, which disables the
        confirm button for the empty candidate. */
    method Cancel()
      requires Valid()
      modifies this
      ensures Valid()
      ensures candidate == EmptyCandidate && mirrored == {}
      ensures unchanged(this`tags, this`added, this`assignedIds, this`target)
      ensures confirmEnabled == (if old(mirrored) == {} then old(confirmEnabled) else false)
    {
      candidate := EmptyCandidate;
      RemoveAttribute(IdField);
      RemoveAttribute(NameField);
      RemoveAttribute(TypeField);
      // Data-id, data-name and data-type are the only candidate attributes.
      assert old(mirrored) - {IdField} - {NameField} - {TypeField} == {} by {
        forall f | f in old(mirrored) ensures f in {IdField, NameField, TypeField} {
          match f
          case IdField =>
          case NameField =>
          case TypeField =>
        }
      }
    }

    /** The confirm button (only an enabled button can be clicked). The
        candidate goes through the assign move; a throwing target selector
        aborts the click handler there and nothing changes. Otherwise the id
        is filtered out of the pool and appended to the session list, even
        when the target found nothing, the pool is published, and the cancel
        path runs. */
    method Confirm()
      requires Valid() && confirmEnabled
      modifies this
      ensures Valid()
      ensures old(target) == Invalid ==> unchanged(this)
      ensures old(target) != Invalid ==>
                && tags == Without(old(tags), old(candidate.id))
                && added == old(added) + [old(candidate.id)]
                && candidate == EmptyCandidate && mirrored == {}
                && !confirmEnabled
      ensures unchanged(this`assignedIds, this`target)
    {
      var id := candidate.id;
      var thrown := AssignMove(id);
      if thrown {
        return;
      }
      tags := Without(tags, id);
      added := added + [id];
      PublishTags();
      Cancel();
    }

    /** The state part of `removeTagFromTarget`: nothing happens unless the
        target finds its container (a throwing selector aborts, a missing
        container returns); otherwise the id leaves the session list, is put
        back into the pool (appended and the pool re-sorted by NumKey when it
        is not there) and the pool is published. */
    method Unassign(id: string)
      requires Valid()
      modifies this
      ensures Valid()
      ensures old(target) != Found ==> unchanged(this)
      ensures old(target) == Found ==>
                && tags == Reinsert(old(tags), id)
                && added == Without(old(added), id)
                && confirmEnabled == Ready(candidate)
      ensures unchanged(this`assignedIds, this`candidate, this`target, this`mirrored)
    {
      if target != Found {
        return;
      }
      var pool := ReinsertSorted(tags, id);
      added, tags := Without(added, id), pool;
      PublishTags();
    }
  }

  /** Confirming a candidate while the target finds its container and then removing the
      rendered tag again: the id is back in the pool exactly once and gone
      from the session list. */
  method ConfirmThenUnassign(w: Tag)
    requires w.Valid() && w.confirmEnabled && w.target == Found
    modifies w
    ensures old(w.candidate.id) in w.tags && old(w.candidate.id) !in w.added
    ensures multiset(w.tags) == multiset(old(w.tags))[old(w.candidate.id) := 1]
    ensures w.added == Without(old(w.added), old(w.candidate.id))
  {
    var x := w.candidate.id;
    w.Confirm();
    w.Unassign(x);
    ConfirmThenUnassignLists(old(w.tags), old(w.added), x);
  }
}
