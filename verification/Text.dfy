/** String normalisation as the runtime's `trim` and `toLowerCase` do it. */
module Text {
  import opened Basics

  /** The white space and line terminators that `String.prototype.trim` removes. */
  predicate IsSpace(c: char) {
    var n := c as int;
    || 9 <= n <= 13 || n == 32 || n == 160 || n == 0x1680 || 0x2000 <= n <= 0x200A
    || n == 0x2028 || n == 0x2029 || n == 0x202F || n == 0x205F || n == 0x3000 || n == 0xFEFF
  }

  /** White space by code point: tab to carriage return, space, the no-break space and the Unicode spaces, line separators
      and byte order mark. */
  lemma SpacesByCode(c: char)
    ensures IsSpace(c) <==> (c as int) in {
              9, 10, 11, 12, 13, 32, 160, 5760, 8192, 8193, 8194, 8195, 8196, 8197, 8198, 8199, 8200, 8201, 8202,
              8232, 8233, 8239, 8287, 12288, 65279}
  {
  }

  /** No white space at either end. */
  predicate Trimmed(s: string) {
    s != "" ==> !IsSpace(s[0]) && !IsSpace(s[|s| - 1])
  }

  /** An identifier as every caller stores it. */
  predicate CleanId(s: string) {
    s != "" && Trimmed(s)
  }

  /** Where the text begins, at `i` or after. */
  function TextStart(s: string, i: nat): (r: nat)
    requires i <= |s|
    ensures i <= r <= |s| && (r < |s| ==> !IsSpace(s[r]))
    decreases |s| - i
  {
    if i < |s| && IsSpace(s[i]) then TextStart(s, i + 1) else i
  }

  /** Where the text that begins at `i` ends, at `j` or before. */
  function TextEnd(s: string, i: nat, j: nat): (r: nat)
    requires i <= j <= |s|
    ensures i <= r <= j && (i < r ==> !IsSpace(s[r - 1]))
  {
    if i < j && IsSpace(s[j - 1]) then TextEnd(s, i, j - 1) else j
  }

  function Trim(s: string): (r: string)
    ensures Trimmed(r)
    ensures Trimmed(s) ==> r == s
  {
    var start := TextStart(s, 0);
    s[start..TextEnd(s, start, |s|)]
  }

  function NonBlank(stashId: string): Option<string> {
    if Trim(stashId) == "" then None else Some(Trim(stashId))
  }

  /** The distinct trimmed ids, blank ones dropped. */
  function NormalizedIds(stashIds: seq<string>): seq<string> {
    DistinctSome(MapSeq(NonBlank, stashIds))
  }

  lemma NormalizedNonBlank(stashIds: seq<string>)
    ensures NoDuplicates(NormalizedIds(stashIds))
    ensures forall id :: id in NormalizedIds(stashIds) ==> CleanId(id)
  {
    var ids := MapSeq(NonBlank, stashIds);
    DistinctMembers(ids);
    forall id | id in NormalizedIds(stashIds) ensures CleanId(id) {
      var i :| 0 <= i < |ids| && ids[i] == Some(id);
      assert ids[i] == NonBlank(stashIds[i]);
    }
  }

  /** ASCII lower-casing. No other character lower-cases to a letter of the compared words. */
  function LowerChar(c: char): char {
    if 'A' <= c <= 'Z' then ((c as int) + 32) as char else c
  }

  function Lower(s: string): string {
    if s == "" then "" else [LowerChar(s[0])] + Lower(s[1..])
  }

  function Normalise(s: string): string {
    Lower(Trim(s))
  }

  /** Trimming takes the white space off both ends and nothing else. */
  lemma TrimStrips(s: string) returns (i: nat, j: nat)
    ensures i <= j <= |s| && Trim(s) == s[i..j]
    ensures forall k :: 0 <= k < i || j <= k < |s| ==> IsSpace(s[k])
  {
    i := TextStart(s, 0);
    j := TextEnd(s, i, |s|);
    SpaceBefore(s, 0);
    SpaceAfter(s, i, |s|);
  }

  /** What stands between white space is what trimming leaves. */
  lemma TrimOf(before: string, core: string, after: string)
    requires core != "" && Trimmed(core)
    requires forall k :: 0 <= k < |before| ==> IsSpace(before[k])
    requires forall k :: 0 <= k < |after| ==> IsSpace(after[k])
    ensures Trim(before + core + after) == core
  {
    var s := before + core + after;
    var i, j := TrimStrips(s);
    assert s[|before|] == core[0] && s[|before| + |core| - 1] == core[|core| - 1];
    assert i <= |before| && |before| + |core| <= j;
    assert forall k :: 0 <= k < |before| ==> s[k] == before[k];
    assert forall k :: 0 <= k < |after| ==> s[|before| + |core| + k] == after[k];
  }

  lemma {:induction false} SpaceBefore(s: string, i: nat)
    requires i <= |s|
    ensures forall k :: i <= k < TextStart(s, i) ==> IsSpace(s[k])
    decreases |s| - i
  {
    if i < |s| && IsSpace(s[i]) {
      SpaceBefore(s, i + 1);
    }
  }

  lemma {:induction false} SpaceAfter(s: string, i: nat, j: nat)
    requires i <= j <= |s|
    ensures forall k :: TextEnd(s, i, j) <= k < j ==> IsSpace(s[k])
  {
    if i < j && IsSpace(s[j - 1]) {
      SpaceAfter(s, i, j - 1);
    }
  }

  /** Lower-casing turns each capital into its small letter and leaves every other character. */
  lemma {:induction false} LowerAt(s: string, k: nat)
    requires k < |s|
    ensures |Lower(s)| == |s|
    ensures Lower(s)[k] == if 'A' <= s[k] <= 'Z' then s[k] - 'A' + 'a' else s[k]
  {
    if s[1..] != "" {
      LowerAt(s[1..], if k > 0 then k - 1 else 0);
    }
  }

  lemma {:induction false} LowerKeeps(s: string)
    requires forall i :: 0 <= i < |s| ==> 'a' <= s[i] <= 'z'
    ensures Lower(s) == s
  {
    if s != "" {
      LowerKeeps(s[1..]);
    }
  }

  lemma LowerCaseWord(s: string)
    requires s != "" && forall i :: 0 <= i < |s| ==> 'a' <= s[i] <= 'z'
    ensures Normalise(s) == s
  {
    assert Trimmed(s);
    LowerKeeps(s);
  }
}
