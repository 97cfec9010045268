/**
 * The drag-activation filter of app/hooks/useCustomSensors.ts: a pointer or touch
 * drag may start only when neither the element under the pointer nor any of its
 * ancestors carries a `data-no-dnd` marker.
 */
module CustomSensors {
  import opened Wrappers

  /** `element.dataset.noDnd` is truthy: present and not the empty string. */
  predicate IsMarked(noDnd: Option<string>) {
    noDnd.Some? && noDnd.value != ""
  }

  /** The answer for an ancestor chain, given as the `noDnd` values from the
      element up to the root: refuse at the first marked element. */
  function Activates(chain: seq<Option<string>>): bool {
    if chain == [] then true
    else if IsMarked(chain[0]) then false
    else Activates(chain[1..])
  }

  /** A drag is refused exactly when some element of the chain is marked. */
  lemma {:induction false} ActivatesIffUnmarked(chain: seq<Option<string>>)
    ensures Activates(chain) <==> forall i :: 0 <= i < |chain| ==> !IsMarked(chain[i])
  {
    if chain != [] {
      ActivatesIffUnmarked(chain[1..]);
      assert forall i :: 1 <= i < |chain| ==> chain[i] == chain[1..][i - 1];
    }
  }

  /** A DOM element with its `data-no-dnd` value and its parent. */
  class Element {
    var noDnd: Option<string>
    var parentElement: Element?
    /** The `noDnd` values of this element and its ancestors, nearest first. */
    ghost var chain: seq<Option<string>>
    ghost var footprint: set<object>

    ghost predicate Valid()
      reads this, footprint
    {
      this in footprint &&
      (parentElement == null ==> chain == [noDnd]) &&
      (parentElement != null ==>
        parentElement in footprint && parentElement.footprint <= footprint &&
        this !in parentElement.footprint &&
        chain == [noDnd] + parentElement.chain &&
        parentElement.Valid())
    }

    /** An element under `parent` (or a root when it is null). */
    constructor (noDnd: Option<string>, parent: Element?)
      requires parent != null ==> parent.Valid()
      ensures Valid()
      ensures this.noDnd == noDnd && parentElement == parent
      ensures chain == [noDnd] + (if parent == null then [] else parent.chain)
    {
      this.noDnd := noDnd;
      parentElement := parent;
      if parent == null {
        chain := [noDnd];
        footprint := {this};
      } else {
        chain := [noDnd] + parent.chain;
        footprint := {this} + parent.footprint;
      }
    }
  }

  /** `customHandleEvent(element)`: walks from the element up through its
      ancestors and answers false at the first marked one, true past the root. */
  method CustomHandleEvent(element: Element?) returns (ok: bool)
    requires element != null ==> element.Valid()
    ensures element == null ==> ok
    ensures element != null ==> ok == Activates(element.chain)
  {
    if element == null {
      return true;
    }
    var current := element;
    ghost var seen := 0;
    while current != null
      invariant current != null ==> current.Valid()
      invariant 0 <= seen <= |element.chain|
      invariant current != null ==> seen < |element.chain| && current.chain == element.chain[seen..]
      invariant current == null ==> seen == |element.chain|
      invariant Activates(element.chain) == Activates(element.chain[seen..])
      decreases if current == null then 0 else |current.chain|
    {
      assert element.chain[seen..][1..] == element.chain[seen + 1..];
      if IsMarked(current.noDnd) {
        return false;
      }
      current := current.parentElement;
      seen := seen + 1;
    }
    ok := true;
  }
}
