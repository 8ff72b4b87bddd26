/**
 * Trigger contacts: the `OnTriggerEnter` and `OnTriggerExit` messages the engine sends a
 * trigger collider, each carrying the tag of the other collider.  Several of the puzzle
 * components keep one flag that a matching enter sets and a matching exit clears; this
 * module gives that latch and what it amounts to over a run of contacts.
 */
module Contacts {

  datatype Contact = Enter(tag: string) | Exit(tag: string)

  /** The flag after one contact: a matching enter sets it, a matching exit clears it. */
  function Step(active: bool, matches: string -> bool, c: Contact): bool
  {
    if matches(c.tag) then c.Enter? else active
  }

  /** The flag after a run of contacts, in order. */
  function Latch(active: bool, matches: string -> bool, cs: seq<Contact>): bool
  {
    if cs == [] then active else Step(Latch(active, matches, cs[..|cs| - 1]), matches, cs[|cs| - 1])
  }

  /**
   * Only the last matching contact counts: with none, the flag keeps its first value;
   * otherwise it is set exactly when that contact was an enter.
   */
  lemma {:induction false} LastMatchDecides(active: bool, matches: string -> bool, cs: seq<Contact>)
    ensures (forall i :: 0 <= i < |cs| ==> !matches(cs[i].tag)) ==> Latch(active, matches, cs) == active
    ensures forall i :: 0 <= i < |cs| && matches(cs[i].tag) && (forall j :: i < j < |cs| ==> !matches(cs[j].tag)) ==>
      Latch(active, matches, cs) == cs[i].Enter?
    decreases |cs|
  {
    if cs != [] {
      var n := |cs| - 1;
      var pre := cs[..n];
      LastMatchDecides(active, matches, pre);
      assert Latch(active, matches, cs) == Step(Latch(active, matches, pre), matches, cs[n]);
      forall i | 0 <= i < |cs| && matches(cs[i].tag) && (forall j :: i < j < |cs| ==> !matches(cs[j].tag))
        ensures Latch(active, matches, cs) == cs[i].Enter?
      {
        if i < n {
          assert !matches(cs[n].tag);
          assert pre[i] == cs[i];
          assert forall j :: i < j < |pre| ==> pre[j] == cs[j];
        }
      }
      if forall i :: 0 <= i < |cs| ==> !matches(cs[i].tag) {
        assert forall i :: 0 <= i < |pre| ==> pre[i] == cs[i];
      }
    }
  }

  /** A matching enter followed by the matching exit leaves the flag cleared, whatever it was. */
  lemma EnterThenExit(active: bool, matches: string -> bool, tag: string)
    requires matches(tag)
    ensures Latch(active, matches, [Enter(tag), Exit(tag)]) == false
    ensures Latch(active, matches, [Enter(tag)]) == true
  {
    assert [Enter(tag), Exit(tag)][..1] == [Enter(tag)];
  }
}
