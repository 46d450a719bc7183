/**
  The avatar's fallback rendering: initials taken from the display name and a
  background colour picked from the sum of the name's UTF-16 code units.
 */
module Avatar {
  import opened Common

  /**
    `toUpperCase` of one character, for the Latin-1 range: a-z and the accented
    lower-case letters move up by 0x20, 'µ' maps to Greek capital mu, 'ÿ' to 'Ÿ'
    and 'ß' to the two letters "SS". Other characters are left as they are.
   */
  function UpperChar(c: char): (r: string)
    ensures c == 'ß' ==> r == "SS"
    ensures c != 'ß' ==> |r| == 1
    ensures 'A' <= c <= 'Z' ==> r == [c]
  {
    if 'a' <= c <= 'z' then [(c as int - 0x20) as char]
    else if c == 'µ' then ['Μ']
    else if c == 'ß' then "SS"
    else if 'à' <= c <= 'þ' && c != '÷' then [(c as int - 0x20) as char]
    else if c == 'ÿ' then ['Ÿ']
    else [c]
  }

  /** `toUpperCase` of a string, one character at a time. */
  function UpperStr(s: string): (r: string)
    ensures |r| <= 2 * |s|
  {
    if s == [] then [] else UpperChar(s[0]) + UpperStr(s[1..])
  }

  /** `s.charAt(0)`: the first character, or "" for the empty string. */
  function Lead(s: string): (r: string)
    ensures |r| <= 1
  {
    if s == [] then "" else [s[0]]
  }

  /**
    The characters `getInitials` picks from the name's space-separated parts: the
    first part's first character, and with two or more parts the last part's.
   */
  function InitialLetters(names: seq<string>): (r: string)
    requires |names| >= 1
    ensures |r| <= 2
  {
    if |names| == 1 then Lead(names[0])
    else Lead(names[0]) + Lead(names[|names| - 1])
  }

  /** getInitials: '' for an absent name, otherwise the picked characters upper-cased (both branches upper-case them). */
  function GetInitials(name: string): (r: string)
    ensures name == "" ==> r == ""
    ensures |r| <= 4
  {
    if name == "" then ""
    else UpperStr(InitialLetters(Split(name, ' ')))
  }

  /** An absent or empty name has no initials and the grey background. */
  lemma AbsentName()
    ensures GetInitials("") == ""
    ensures GetBackgroundColor("") == NoNameColor
  {
  }

  /** A name that does not start with a space has initials that begin with its first character, upper-cased. */
  lemma InitialsStartWithFirst(name: string)
    requires name != "" && name[0] != ' '
    ensures UpperChar(name[0]) <= GetInitials(name)
    ensures GetInitials(name) != ""
  {
    var names := Split(name, ' ');
    SplitFirst(name, ' ');
    assert names[0][0] == name[0];
    var rest := if |names| == 1 then "" else Lead(names[|names| - 1]);
    var lead := InitialLetters(names);
    assert lead == [name[0]] + rest;
    assert lead[1..] == rest;
    assert UpperStr(lead) == UpperChar(name[0]) + UpperStr(rest);
  }

  /** Upper-casing a string of at most two characters that holds no 'ß' gives at most two characters. */
  lemma UpperStrShort(s: string)
    requires |s| <= 2 && 'ß' !in s
    ensures |UpperStr(s)| == |s|
  {
    if s != [] {
      assert UpperStr(s) == UpperChar(s[0]) + UpperStr(s[1..]);
      if |s| == 2 {
        assert UpperStr(s[1..]) == UpperChar(s[1]) + UpperStr(s[2..]);
      }
    }
  }

  /** A name without spaces gives its first character upper-cased. */
  lemma InitialsOnePart(name: string)
    requires name != "" && ' ' !in name
    ensures GetInitials(name) == UpperChar(name[0])
  {
    SplitNoSeparator(name, ' ');
    assert UpperStr([name[0]]) == UpperChar(name[0]) + UpperStr([]);
  }

  /**
    A name with a space gives the first character before the first space (index
    `j`) and the first character after the last space (index `k`), upper-cased; an
    empty part from a leading or trailing space contributes "".
   */
  lemma InitialsSeveralParts(name: string, j: nat, k: nat)
    requires j <= k < |name| && name[j] == ' ' && name[k] == ' '
    requires ' ' !in name[..j] && ' ' !in name[k + 1..]
    ensures GetInitials(name) == UpperStr(Lead(name[..j]) + Lead(name[k + 1..]))
  {
    SplitEnds(name, ' ', j, k);
    assert InitialLetters(Split(name, ' ')) == Lead(name[..j]) + Lead(name[k + 1..]);
  }

  /** The characters the initials are taken from occur in the name. */
  lemma LeadsInName(name: string)
    ensures var names := Split(name, ' ');
      (forall c :: c in Lead(names[0]) ==> c in name) &&
      (forall c :: c in Lead(names[|names| - 1]) ==> c in name)
  {
    var names := Split(name, ' ');
    var first, l := names[0], names[|names| - 1];
    assert forall c :: c in Lead(first) ==> c in name by {
      SplitFirst(name, ' ');
      if first != "" { assert first[0] == name[0]; }
    }
    assert forall c :: c in Lead(l) ==> c in name by {
      SplitLast(name, ' ');
      if l != "" { assert l[0] == name[|name| - |l|]; }
    }
  }

  /** Initials have at most two characters unless an upper-cased 'ß' turns into "SS". */
  lemma InitialsLength(name: string)
    requires 'ß' !in name
    ensures |GetInitials(name)| <= 2
  {
    if name != "" {
      LeadsInName(name);
      UpperStrShort(InitialLetters(Split(name, ' ')));
    }
  }

  /** `charCodeAt(0)` summed over the UTF-16 code units of one character. */
  function CodeUnitSum(c: char): nat
  {
    var v := c as int;
    if v < 0x1_0000 then v
    else 0xD800 + (v - 0x1_0000) / 0x400 + 0xDC00 + (v - 0x1_0000) % 0x400
  }

  /** The `reduce` over `name.split('')`: the sum of all code units. */
  function Hash(s: string): (r: nat)
    ensures forall i :: 0 <= i < |s| ==> CodeUnitSum(s[i]) <= r
  {
    if s == [] then 0 else CodeUnitSum(s[0]) + Hash(s[1..])
  }

  const Palette: seq<string> := [
    "bg-blue-500", "bg-green-500", "bg-purple-500",
    "bg-pink-500", "bg-indigo-500", "bg-red-500",
    "bg-yellow-500", "bg-teal-500"
  ]

  const NoNameColor := "bg-gray-400"

  /** getBackgroundColor. */
  function GetBackgroundColor(name: string): (r: string)
    ensures name == "" ==> r == NoNameColor
    ensures name != "" ==> r in Palette && r == Palette[Hash(name) % |Palette|]
  {
    if name == "" then NoNameColor else Palette[Hash(name) % |Palette|]
  }

  lemma {:induction false} HashConcat(a: string, b: string)
    ensures Hash(a + b) == Hash(a) + Hash(b)
  {
    if a == [] {
      assert a + b == b;
    } else {
      assert (a + b)[1..] == a[1..] + b;
      HashConcat(a[1..], b);
    }
  }

  /** Taking one character out of a string takes its code units out of the hash. */
  lemma HashRemove(t: string, k: nat)
    requires k < |t|
    ensures Hash(t) == CodeUnitSum(t[k]) + Hash(t[..k] + t[k + 1..])
  {
    assert t == t[..k] + t[k..];
    HashConcat(t[..k], t[k..]);
    assert t[k..][1..] == t[k + 1..];
    HashConcat(t[..k], t[k + 1..]);
  }

  lemma MultisetRemove(t: string, k: nat)
    requires k < |t|
    ensures multiset(t[..k] + t[k + 1..]) == multiset(t) - multiset{t[k]}
  {
    assert t == t[..k] + [t[k]] + t[k + 1..];
  }

  /** The hash depends only on the multiset of characters, so reordering a name keeps its colour. */
  lemma {:induction false} HashPermutation(s: string, t: string)
    requires multiset(s) == multiset(t)
    ensures Hash(s) == Hash(t)
    decreases |s|
  {
    if s != [] {
      assert s[0] in multiset(t);
      var k :| 0 <= k < |t| && t[k] == s[0];
      RemoveMatching(s, t, k);
      HashPermutation(s[1..], t[..k] + t[k + 1..]);
      HashRemove(t, k);
    }
  }

  /** Taking the first character off `s` and a matching one off `t` keeps the multisets equal. */
  lemma RemoveMatching(s: string, t: string, k: nat)
    requires s != [] && multiset(s) == multiset(t) && k < |t| && t[k] == s[0]
    ensures multiset(s[1..]) == multiset(t[..k] + t[k + 1..])
  {
    MultisetRemove(t, k);
    MultisetTail(s);
  }

  lemma MultisetTail(s: string)
    requires s != []
    ensures multiset(s[1..]) == multiset(s) - multiset{s[0]}
  {
    assert s == [s[0]] + s[1..];
  }

  /** Two names with the same characters in any order get the same background colour. */
  lemma ColorIgnoresOrder(s: string, t: string)
    requires multiset(s) == multiset(t)
    ensures GetBackgroundColor(s) == GetBackgroundColor(t)
  {
    HashPermutation(s, t);
  }
}
