/**
 * Square names: `indexToCoordinate` of the front end, and its inverse.
 *
 * Square i (0..63, row-major from a1) is named by its file letter 'a' + i % 8
 * followed by its rank number 1 + floor(i / 8).  The backend's own
 * `index2str` and `str2index` are taken to be this mapping and its inverse.
 */
module Notation {
  import opened Wrappers

  /** JavaScript's `String(n)` for a non-negative integer: its decimal digits. */
  function DecimalString(n: nat): (s: string)
    ensures |s| >= 1
    ensures n < 10 ==> s == [('0' as int + n) as char]
  {
    if n < 10 then [('0' as int + n) as char]
    else DecimalString(n / 10) + [('0' as int + n % 10) as char]
  }

  /**
   * `indexToCoordinate(index)`: `String.fromCharCode(97 + index % 8)`
   * followed by `String(Math.floor(index / 8) + 1)`.
   */
  function IndexToCoordinate(index: nat): (name: string)
    ensures index < 64 ==> IsCoordinate(name)
    ensures index < 64 ==> name[0] == ('a' as int + index % 8) as char
    ensures index < 64 ==> name[1] == ('1' as int + index / 8) as char
  {
    [(97 + index % 8) as char] + DecimalString(index / 8 + 1)
  }

  /** The name matches `[a-h][1-8]`. */
  predicate IsCoordinate(name: string)
  {
    |name| == 2 && 'a' <= name[0] <= 'h' && '1' <= name[1] <= '8'
  }

  /** `str2index(name)` on a well-formed square name; `None` for any other text. */
  function CoordinateToIndex(name: string): (index: Option<nat>)
    ensures index.Some? <==> IsCoordinate(name)
    ensures index.Some? ==> index.value < 64
  {
    if IsCoordinate(name) then
      Some((name[1] as int - '1' as int) * 8 + (name[0] as int - 'a' as int))
    else None
  }

  /** Reading back the name of a square gives the square. */
  lemma {:induction false} IndexRoundTrip(index: nat)
    requires index < 64
    ensures CoordinateToIndex(IndexToCoordinate(index)) == Some(index)
  {
    var name := IndexToCoordinate(index);
    assert name[1] as int - '1' as int == index / 8;
    assert name[0] as int - 'a' as int == index % 8;
  }

  /** Every well-formed name is the name of the square it denotes. */
  lemma {:induction false} CoordinateRoundTrip(name: string)
    requires IsCoordinate(name)
    ensures CoordinateToIndex(name).Some?
    ensures IndexToCoordinate(CoordinateToIndex(name).value) == name
  {
    var file, rank := name[0] as int - 'a' as int, name[1] as int - '1' as int;
    var index := rank * 8 + file;
    assert index / 8 == rank && index % 8 == file;
    var back := IndexToCoordinate(index);
    assert back[0] == name[0] && back[1] == name[1];
  }

  /** Distinct squares have distinct names. */
  lemma IndexToCoordinateInjective(i: nat, j: nat)
    requires i < 64 && j < 64
    requires IndexToCoordinate(i) == IndexToCoordinate(j)
    ensures i == j
  {
    IndexRoundTrip(i);
    IndexRoundTrip(j);
  }
}
