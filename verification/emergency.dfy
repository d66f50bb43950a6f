/** The personal emergency-contact list of src/components/EmergencyView.tsx:
    the list itself, the text typed in the input box, and the add and
    remove handlers that replace them. */
module Emergency {
  import opened Text

  predicate NoDuplicates(s: seq<string>)
  {
    forall i, j :: 0 <= i < j < |s| ==> s[i] != s[j]
  }

  /** `s.filter(c => c !== x)`. */
  function Without(s: seq<string>, x: string): (r: seq<string>)
    ensures |r| <= |s|
    ensures forall c :: c in r <==> c in s && c != x
  {
    if s == [] then []
    else
      var init, last := s[..|s| - 1], s[|s| - 1];
      assert s == init + [last];
      Without(init, x) + (if last != x then [last] else [])
  }

  /** Removing an absent entry changes nothing. */
  lemma {:induction false} WithoutAbsent(s: seq<string>, x: string)
    requires x !in s
    ensures Without(s, x) == s
  {
    if s != [] {
      var init := s[..|s| - 1];
      assert s == init + [s[|s| - 1]];
      WithoutAbsent(init, x);
    }
  }

  /** In a list without duplicates, removing an entry takes out exactly
      that one position and keeps the others in order. */
  lemma {:induction false} WithoutPresent(s: seq<string>, i: nat)
    requires i < |s| && NoDuplicates(s)
    ensures Without(s, s[i]) == s[..i] + s[i + 1..]
  {
    var x := s[i];
    var init, last := s[..|s| - 1], s[|s| - 1];
    if i == |s| - 1 {
      assert x !in init by {
        forall k | 0 <= k < |init|
          ensures init[k] != x
        {
          assert s[k] != s[i];
        }
      }
      WithoutAbsent(init, x);
    } else {
      assert init[i] == x;
      WithoutPresent(init, i);
      assert s[i + 1..] == init[i + 1..] + [last];
      assert init[..i] == s[..i];
    }
  }

  lemma {:induction false} WithoutKeepsDistinct(s: seq<string>, x: string)
    requires NoDuplicates(s)
    ensures NoDuplicates(Without(s, x))
  {
    if s != [] {
      var init, last := s[..|s| - 1], s[|s| - 1];
      WithoutKeepsDistinct(init, x);
      assert last !in init by {
        forall k | 0 <= k < |init|
          ensures init[k] != last
        {
          assert s[k] != s[|s| - 1];
        }
      }
    }
  }

  /** The entries a valid contact list holds: present, and with no white space around them. */
  predicate CleanContacts(cs: seq<string>)
  {
    forall c :: c in cs ==> c != "" && Trim(c) == c
  }

  /** Appending a new trimmed, non-blank contact keeps the list distinct and clean. */
  lemma AppendKeepsClean(cs: seq<string>, t: string)
    requires NoDuplicates(cs) && CleanContacts(cs)
    requires t != "" && Trim(t) == t && t !in cs
    ensures NoDuplicates(cs + [t]) && CleanContacts(cs + [t])
  {
  }

  class ContactList {
    var emergencyContacts: seq<string>
    var newContact: string

    /** No contact twice, none blank, none with white space around it. */
    predicate Valid()
      reads this
    {
      && NoDuplicates(emergencyContacts)
      && CleanContacts(emergencyContacts)
    }

    constructor()
      ensures Valid() && emergencyContacts == [] && newContact == ""
    {
      emergencyContacts := [];
      newContact := "";
    }

    /** The input box's change handler. */
    method SetNewContact(text: string)
      requires Valid()
      modifies this
      ensures Valid()
      ensures newContact == text && emergencyContacts == old(emergencyContacts)
    {
      newContact := text;
    }

    /** `addEmergencyContact`: appends the trimmed input and clears it when
        the trimmed input is not blank and not yet listed; otherwise
        changes nothing. */
    method AddEmergencyContact()
      requires Valid()
      modifies this
      ensures Valid()
      ensures var t := Trim(old(newContact));
        if t != "" && t !in old(emergencyContacts) then
          emergencyContacts == old(emergencyContacts) + [t] && newContact == ""
        else
          emergencyContacts == old(emergencyContacts) && newContact == old(newContact)
    {
      var trimmed := Trim(newContact);
      if trimmed != "" && trimmed !in emergencyContacts {
        TrimIdempotent(newContact);
        AppendKeepsClean(emergencyContacts, trimmed);
        emergencyContacts := emergencyContacts + [trimmed];
        newContact := "";
      }
    }

    /** `removeContact`: drops every entry equal to `contact`, keeping the rest in order. */
    method RemoveContact(contact: string)
      requires Valid()
      modifies this
      ensures Valid()
      ensures emergencyContacts == Without(old(emergencyContacts), contact)
      ensures newContact == old(newContact)
    {
      WithoutKeepsDistinct(emergencyContacts, contact);
      emergencyContacts := Without(emergencyContacts, contact);
    }
  }
}
