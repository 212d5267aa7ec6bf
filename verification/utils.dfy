/** The shared helpers: the name filter, the power column and the escape-key guard. */
module Utils {

  import opened Text
  import opened Types

  // ---------------------------------------------------------------------------
  // Name filter
  // ---------------------------------------------------------------------------

  /** The per-row test: an empty filter keeps every row; otherwise the
      lower-cased name must contain the lower-cased filter. */
  predicate Matches(filter: string, c: Character) {
    filter == [] || Includes(Lower(c.name), Lower(filter))
  }

  /** `a` is `b` with some elements dropped, the rest in their original order. */
  ghost predicate IsSubsequence<T>(a: seq<T>, b: seq<T>)
    decreases |b|
  {
    if a == [] then true
    else if b == [] then false
    else (a[0] == b[0] && IsSubsequence(a[1..], b[1..])) || IsSubsequence(a, b[1..])
  }

  /** The rows of `characters` that `filter` keeps, in their original order. */
  function FilterCharacters(characters: seq<Character>, filter: string): (r: seq<Character>)
    ensures |r| <= |characters|
    ensures forall c :: c in r <==> c in characters && Matches(filter, c)
  {
    if characters == [] then []
    else
      var rest := FilterCharacters(characters[1..], filter);
      if Matches(filter, characters[0]) then [characters[0]] + rest else rest
  }

  /** A row is shown iff it is in the input and its name contains the filter,
      both lower-cased; an empty filter shows every row. */
  lemma {:induction false} FilterMembership(characters: seq<Character>, filter: string, c: Character)
    ensures c in FilterCharacters(characters, filter)
        <==> c in characters && (filter == [] || Contains(Lower(c.name), Lower(filter)))
  {
    if characters != [] {
      FilterMembership(characters[1..], filter, c);
      assert c in characters <==> c == characters[0] || c in characters[1..];
    }
  }

  /** A kept row appears as often as in the input; a dropped row not at all. */
  lemma {:induction false} FilterCounts(characters: seq<Character>, filter: string, c: Character)
    ensures multiset(FilterCharacters(characters, filter))[c]
         == if Matches(filter, c) then multiset(characters)[c] else 0
  {
    if characters != [] {
      FilterCounts(characters[1..], filter, c);
      assert characters == [characters[0]] + characters[1..];
    }
  }

  lemma {:induction false} FilterIsSubsequence(characters: seq<Character>, filter: string)
    ensures IsSubsequence(FilterCharacters(characters, filter), characters)
    decreases |characters|
  {
    if characters != [] {
      FilterIsSubsequence(characters[1..], filter);
      var r := FilterCharacters(characters, filter);
      if !Matches(filter, characters[0]) && r != [] {
        assert IsSubsequence(r, characters[1..]);
      }
    }
  }

  lemma {:induction false} FilterEmptyKeepsAll(characters: seq<Character>)
    ensures FilterCharacters(characters, "") == characters
  {
    if characters != [] {
      FilterEmptyKeepsAll(characters[1..]);
    }
  }

  lemma {:induction false} FilterAppend(a: seq<Character>, b: seq<Character>, filter: string)
    ensures FilterCharacters(a + b, filter) == FilterCharacters(a, filter) + FilterCharacters(b, filter)
  {
    if a == [] {
      assert a + b == b;
    } else {
      assert (a + b)[1..] == a[1..] + b;
      assert (a + b)[0] == a[0];
      FilterAppend(a[1..], b, filter);
    }
  }

  lemma {:induction false} FilterIdempotent(characters: seq<Character>, filter: string)
    ensures FilterCharacters(FilterCharacters(characters, filter), filter) == FilterCharacters(characters, filter)
  {
    if characters != [] {
      var c := characters[0];
      var rest := FilterCharacters(characters[1..], filter);
      FilterIdempotent(characters[1..], filter);
      if Matches(filter, c) {
        assert ([c] + rest)[1..] == rest;
      }
    }
  }

  lemma {:induction false} FilterCaseInsensitive(characters: seq<Character>, filter: string)
    ensures FilterCharacters(characters, Lower(filter)) == FilterCharacters(characters, filter)
  {
    LowerIdempotent(filter);
    if characters != [] {
      FilterCaseInsensitive(characters[1..], filter);
    }
  }

  // ---------------------------------------------------------------------------
  // Power column
  // ---------------------------------------------------------------------------

  const Unknown := "unknown"

  /** The power cell: the "-" marker, or a number. */
  datatype Power = Missing | Value(n: int)

  /** The mass text as handed to `Number`: the first comma becomes a dot. */
  function NormaliseMass(mass: string): (r: string)
    ensures |r| == |mass|
    ensures ',' !in mass ==> r == mass
    ensures ',' in mass ==>
      var i := FirstIndex(mass, ',');
      r[i] == '.' && forall k :: 0 <= k < |mass| && k != i ==> r[k] == mass[k]
  {
    if ',' in mass then ReplaceFirst(mass, ',', '.') else mass
  }

  /** The power of a row. `product(m, h, w)` stands for
      `Math.round(m * Number(h) * Number(w))`, whose floating-point
      arithmetic is not modelled. */
  function CharacterPower(c: Character, multiplier: int, product: (int, string, string) -> int): (p: Power)
    ensures p == Missing <==> c.height == Unknown || c.mass == Unknown
    ensures p.Value? ==> p.n == product(multiplier, c.height, NormaliseMass(c.mass))
  {
    if c.height == Unknown || c.mass == Unknown then Missing
    else Value(product(multiplier, c.height, NormaliseMass(c.mass)))
  }

  /** The mass `w,f` normalises to `w.f` when `w` holds no comma. */
  lemma NormaliseFirstComma(whole: string, frac: string)
    requires ',' !in whole
    ensures NormaliseMass(whole + "," + frac) == whole + "." + frac
  {
    var mass := whole + "," + frac;
    assert mass[|whole|] == ',';
    ReplaceFirstSplit(whole, frac, ',', '.');
  }

  /** A text holding a character that "unknown" lacks is not the marker. */
  lemma NotUnknown(s: string, k: int)
    requires 0 <= k < |s| && s[k] !in Unknown
    ensures s != Unknown
  {
  }

  /** A decimal comma and a decimal dot give the same power: a mass written
      `w,f` with a single comma is read exactly as `w.f`. (With a second comma
      the two differ: only the first comma is rewritten.) */
  lemma CommaReadAsDot(c: Character, whole: string, frac: string, multiplier: int, product: (int, string, string) -> int)
    requires ',' !in whole && ',' !in frac
    ensures CharacterPower(c.(mass := whole + "," + frac), multiplier, product)
         == CharacterPower(c.(mass := whole + "." + frac), multiplier, product)
  {
    var comma := whole + "," + frac;
    var dot := whole + "." + frac;
    assert comma[|whole|] == ',';
    NotUnknown(comma, |whole|);
    assert dot[|whole|] == '.';
    NotUnknown(dot, |whole|);
    NormaliseFirstComma(whole, frac);
    assert ',' !in dot;
  }

  // ---------------------------------------------------------------------------
  // Escape key
  // ---------------------------------------------------------------------------

  const Escape := "Escape"

  /** A key-event listener that runs `handleEvent` only for the Escape key;
      the listener's effect is modelled as a transformer of the caller's state. */
  function EscKeyDown<S>(code: string, handleEvent: S -> S, state: S): (r: S)
    ensures code == Escape ==> r == handleEvent(state)
    ensures code != Escape ==> r == state
  {
    if code == Escape then handleEvent(state) else state
  }
}
