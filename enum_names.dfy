/** Case-insensitive lookup of an enumeration member by its name, the part of
    `Enum.TryParse<TEnum>(value, ignoreCase: true, out result)` that the field
    analysis relies on. */
module EnumNames {
  import opened Wrappers

  /** ASCII case folding: an upper-case Latin letter becomes lower case,
      every other character is kept. */
  function LowerChar(c: char): char
  {
    if 'A' <= c <= 'Z' then (c as int - 'A' as int + 'a' as int) as char else c
  }

  function Lower(s: string): string
  {
    seq(|s|, i requires 0 <= i < |s| => LowerChar(s[i]))
  }

  /** Two texts are equal up to ASCII case. */
  predicate SameIgnoringCase(a: string, b: string)
  {
    Lower(a) == Lower(b)
  }

  /** No two members have names that are equal up to case. */
  ghost predicate UniqueIgnoringCase<E>(members: seq<E>, name: E -> string)
  {
    forall x, y :: x in members && y in members && SameIgnoringCase(name(x), name(y)) ==> x == y
  }

  /** The first member, in declaration order, whose name equals `text` up to
      case; `None` when there is none. */
  function TryParseEnum<E>(text: string, members: seq<E>, name: E -> string): (r: Option<E>)
    ensures r.Some? ==> r.value in members && SameIgnoringCase(text, name(r.value))
    ensures r.None? <==> forall e :: e in members ==> !SameIgnoringCase(text, name(e))
  {
    if members == [] then None
    else if SameIgnoringCase(text, name(members[0])) then Some(members[0])
    else TryParseEnum(text, members[1..], name)
  }

  /** When names are unique up to case, a text that names a member finds
      exactly that member. */
  lemma TryParseEnumFinds<E>(text: string, members: seq<E>, name: E -> string, e: E)
    requires UniqueIgnoringCase(members, name)
    requires e in members && SameIgnoringCase(text, name(e))
    ensures TryParseEnum(text, members, name) == Some(e)
  {
    var r := TryParseEnum(text, members, name);
    assert r.Some?;
    assert SameIgnoringCase(name(r.value), name(e));
  }

  /** The lookup sees its text only up to case. */
  lemma {:induction false} TryParseEnumIgnoresCase<E>(a: string, b: string, members: seq<E>, name: E -> string)
    requires SameIgnoringCase(a, b)
    ensures TryParseEnum(a, members, name) == TryParseEnum(b, members, name)
  {
    if members != [] {
      TryParseEnumIgnoresCase(a, b, members[1..], name);
    }
  }

  /** Texts of different lengths, or with different first letters up to case,
      are different up to case. */
  lemma DifferentIgnoringCase(a: string, b: string)
    requires |a| != |b| || (|a| > 0 && |b| > 0 && LowerChar(a[0]) != LowerChar(b[0]))
    ensures !SameIgnoringCase(a, b)
  {
    if |a| == |b| {
      assert Lower(a)[0] != Lower(b)[0];
    }
  }
}
