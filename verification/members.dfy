/** The coffee-roulette member list: trimmed, non-empty, distinct names. */
module Members {

  import opened Seqs
  import opened Text

  /** A name as `addMember` stores it: non-empty and already trimmed. */
  predicate WellFormedName(name: string) {
    name != "" && Trim(name) == name
  }

  /** Every stored name is well formed and none occurs twice. */
  predicate ValidMembers(ms: seq<string>) {
    NoDup(ms) && forall i :: 0 <= i < |ms| ==> WellFormedName(ms[i])
  }

  /** `addMember` accepts the typed text when its trimmed form is non-empty
      and not yet listed: the text holds some character other than white
      space, and what it trims to is a well-formed new name. */
  function Accepts(ms: seq<string>, input: string): (ok: bool)
    ensures ok <==> (exists k :: 0 <= k < |input| && !IsSpace(input[k])) && Trim(input) !in ms
    ensures ok ==> WellFormedName(Trim(input))
  {
    TrimEmptyIff(input);
    TrimIdempotent(input);
    Trim(input) != "" && Trim(input) !in ms
  }

  /** The member list after `addMember` with `input` in the text field. */
  function Add(ms: seq<string>, input: string): (r: seq<string>)
    ensures Accepts(ms, input) ==> |r| == |ms| + 1 && r[..|ms|] == ms && r[|ms|] == Trim(input)
    ensures !Accepts(ms, input) ==> r == ms
    ensures Trim(input) != "" ==> Trim(input) in r
    ensures ValidMembers(ms) ==> ValidMembers(r)
  {
    var name := Trim(input);
    if name != "" && name !in ms then
      AppendKeepsValid(ms, input);
      ms + [name]
    else
      ms
  }

  /** Appending a new, non-empty trimmed name keeps the list valid. */
  lemma AppendKeepsValid(ms: seq<string>, input: string)
    requires Trim(input) != "" && Trim(input) !in ms
    ensures ValidMembers(ms) ==> ValidMembers(ms + [Trim(input)])
  {
    var name := Trim(input);
    var r := ms + [name];
    if ValidMembers(ms) {
      NoDupSnoc(ms, name);
      assert NoDup(r);
      TrimIdempotent(input);
      assert WellFormedName(name);
      forall i | 0 <= i < |r|
        ensures WellFormedName(r[i])
      {
        if i < |ms| {
          assert r[i] == ms[i];
        } else {
          assert r[i] == name;
        }
      }
    }
  }

  /** The filter test of `removeMember(name)`: keep every other name. */
  function OtherName(name: string): string -> bool {
    (m: string) => m != name
  }

  /** The member list after `removeMember(name)`: every other name, in order. */
  function Remove(ms: seq<string>, name: string): (r: seq<string>)
    ensures forall m :: m in r <==> m in ms && m != name
    ensures NoDup(ms) ==> NoDup(r)
    ensures ValidMembers(ms) ==> ValidMembers(r)
  {
    var r := Filter(ms, OtherName(name));
    assert forall i :: 0 <= i < |r| ==> r[i] in ms;
    r
  }

  /** On a duplicate-free list, removing a listed name shortens the list by
      exactly one, and removing an unlisted name changes nothing. */
  lemma RemoveLength(ms: seq<string>, name: string)
    requires NoDup(ms)
    ensures name in ms ==> |Remove(ms, name)| == |ms| - 1
    ensures name !in ms ==> Remove(ms, name) == ms
  {
    if name in ms {
      var k :| 0 <= k < |ms| && ms[k] == name;
      var before, after := ms[..k], ms[k + 1..];
      assert ms == before + [name] + after;
      FilterConcat(before + [name], after, OtherName(name));
      FilterConcat(before, [name], OtherName(name));
      assert forall m :: m in before ==> m != name;
      assert forall m :: m in after ==> m != name;
      FilterKeepsAll(before, OtherName(name));
      FilterKeepsAll(after, OtherName(name));
    } else {
      FilterKeepsAll(ms, OtherName(name));
    }
  }

  /** Removing the name `addMember` just added gives back the list as it was. */
  lemma RemoveUndoesAdd(ms: seq<string>, input: string)
    requires Accepts(ms, input)
    ensures Remove(Add(ms, input), Trim(input)) == ms
  {
    var name := Trim(input);
    FilterConcat(ms, [name], OtherName(name));
    FilterKeepsAll(ms, OtherName(name));
  }
}
