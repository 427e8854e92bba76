/** Keys as the decoder binds them to a field: as they are written, or in any mixture of cases. */
module Spelling {
  import opened Basics

  /** A key the decoder binds to the field of this name, which is in lower case. */
  predicate Folds(name: string, key: string) { Lower(name) == key }

  predicate IsLower(key: string) { forall i :: 0 <= i < |key| ==> !('A' <= key[i] <= 'Z') }

  /** The names defined that start with prefix and go on with any spelling of key. */
  function Written(prefix: string, key: string, defined: set<string>): seq<string>
    decreases |key|, prefix, defined
  {
    if key == "" then (if prefix in defined then [prefix] else [])
    else
      Written(prefix + key[..1], key[1..], defined) +
      if 'a' <= key[0] <= 'z' then Written(prefix + [(key[0] as int - 32) as char], key[1..], defined) else []
  }

  /** The spellings of a key among the names defined. */
  function Spellings(defined: set<string>, key: string): seq<string> { Written("", key, defined) }

  /** name is prefix and then a spelling of key. */
  predicate Continues(name: string, prefix: string, key: string) {
    prefix <= name && Folds(name[|prefix|..], key)
  }

  /** One character on, in one case or the other. */
  lemma ContinuesOn(name: string, prefix: string, key: string)
    requires key != "" && IsLower(key)
    ensures Continues(name, prefix, key) <==>
            || Continues(name, prefix + key[..1], key[1..])
            || ('a' <= key[0] <= 'z' && Continues(name, prefix + [(key[0] as int - 32) as char], key[1..]))
  {
    if prefix <= name && |name| > |prefix| {
      var c, rest := name[|prefix|], name[|prefix| + 1..];
      assert name[|prefix|..] == [c] + rest;
      assert Lower([c] + rest) == Lower([c]) + Lower(rest);
      assert key == key[..1] + key[1..];
      assert prefix + [c] <= name && name[|prefix + [c]|..] == rest;
    }
  }

  lemma {:induction false} InWritten(prefix: string, key: string, defined: set<string>, name: string)
    requires IsLower(key)
    ensures name in Written(prefix, key, defined) <==> name in defined && Continues(name, prefix, key)
    decreases |key|
  {
    if key == "" {
      assert prefix <= name && name[|prefix|..] == "" ==> name == prefix;
    } else {
      ContinuesOn(name, prefix, key);
      InWritten(prefix + key[..1], key[1..], defined, name);
      if 'a' <= key[0] <= 'z' {
        InWritten(prefix + [(key[0] as int - 32) as char], key[1..], defined, name);
      }
    }
  }

  lemma InSpellings(defined: set<string>, key: string, name: string)
    requires IsLower(key)
    ensures name in Spellings(defined, key) <==> name in defined && Folds(name, key)
  {
    InWritten("", key, defined, name);
    assert name[0..] == name;
  }
}
