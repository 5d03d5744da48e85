/** The string operations the search boxes rely on: lower-casing,
    substring search (`String.prototype.includes`) and `Array.join`. */
module Text {

  /** Lower-cases one character; only the ASCII letters A-Z change. */
  function LowerChar(c: char): (d: char)
    ensures 'A' <= c <= 'Z' ==> 'a' <= d <= 'z' && d as int - c as int == 32
    ensures !('A' <= c <= 'Z') ==> d == c
  {
    if 'A' <= c <= 'Z' then (c as int - 'A' as int + 'a' as int) as char else c
  }

  /** `s.toLowerCase()`, restricted to ASCII letters. */
  function ToLower(s: string): (r: string)
    ensures |r| == |s|
    ensures forall i :: 0 <= i < |s| ==> r[i] == LowerChar(s[i])
  {
    seq(|s|, i requires 0 <= i < |s| => LowerChar(s[i]))
  }

  /** `needle` occurs in `hay` starting at position `i`. */
  predicate OccursAt(hay: string, needle: string, i: int)
  {
    0 <= i && i + |needle| <= |hay| && hay[i..i + |needle|] == needle
  }

  /** `hay.includes(needle)`. */
  predicate Contains(hay: string, needle: string)
  {
    exists i :: 0 <= i <= |hay| && OccursAt(hay, needle, i)
  }

  /** The empty string occurs in every string, so an empty search term
      matches everything. */
  lemma ContainsEmpty(hay: string)
    ensures Contains(hay, "")
  {
    assert OccursAt(hay, "", 0);
  }

  /** Lower-casing both sides preserves an occurrence. */
  lemma ContainsToLower(hay: string, needle: string)
    requires Contains(hay, needle)
    ensures Contains(ToLower(hay), ToLower(needle))
  {
    var i :| 0 <= i <= |hay| && OccursAt(hay, needle, i);
    assert ToLower(hay)[i..i + |needle|] == ToLower(needle);
    assert OccursAt(ToLower(hay), ToLower(needle), i);
  }

  /** Substring containment is transitive. */
  lemma ContainsTrans(a: string, b: string, c: string)
    requires Contains(a, b)
    requires Contains(b, c)
    ensures Contains(a, c)
  {
    var i :| 0 <= i <= |a| && OccursAt(a, b, i);
    var j :| 0 <= j <= |b| && OccursAt(b, c, j);
    assert b == a[i..i + |b|];
    assert a[i + j..i + j + |c|] == c by {
      forall k | 0 <= k < |c| ensures a[i + j..i + j + |c|][k] == c[k] {
        assert c[k] == b[j..j + |c|][k] == b[j + k];
        assert b[j + k] == a[i..i + |b|][j + k];
      }
    }
    assert OccursAt(a, c, i + j);
  }

  /** Lower-casing is idempotent and leaves the empty string alone. */
  lemma ToLowerFacts(s: string)
    ensures ToLower(ToLower(s)) == ToLower(s)
    ensures ToLower("") == ""
  {
  }

  /** An occurrence in a part is an occurrence in the whole. */
  lemma ContainsInConcat(a: string, b: string, c: string, needle: string)
    requires Contains(b, needle)
    ensures Contains(a + b + c, needle)
  {
    var i :| 0 <= i <= |b| && OccursAt(b, needle, i);
    var whole := a + b + c;
    assert whole[|a| + i..|a| + i + |needle|] == b[i..i + |needle|];
    assert OccursAt(whole, needle, |a| + i);
  }

  /** `items.join(sep)`. */
  function Join(items: seq<string>, sep: string): string
  {
    if items == [] then ""
    else if |items| == 1 then items[0]
    else items[0] + sep + Join(items[1..], sep)
  }

  /** Every item can be found in the joined label. */
  lemma {:induction false} JoinContainsItem(items: seq<string>, sep: string, k: int)
    requires 0 <= k < |items|
    ensures Contains(Join(items, sep), items[k])
  {
    if |items| == 1 {
      assert OccursAt(items[0], items[0], 0);
    } else if k == 0 {
      assert OccursAt(items[0], items[0], 0);
      ContainsInConcat("", items[0], sep + Join(items[1..], sep), items[0]);
      assert "" + items[0] + (sep + Join(items[1..], sep)) == Join(items, sep);
    } else {
      JoinContainsItem(items[1..], sep, k - 1);
      ContainsInConcat(items[0] + sep, Join(items[1..], sep), "", items[k]);
      assert items[0] + sep + Join(items[1..], sep) + "" == Join(items, sep);
    }
  }
}
