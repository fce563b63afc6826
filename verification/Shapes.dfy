/**
 The shapes of text that documents are checked for: GUIDs, directory names and
 relative paths (crates/mjolnir-image/src/lib.rs, crates/mjolnir-image/src/manifest.rs).
 */
module Shapes {

  /** Where the separator comes first, or the end of the text. */
  function IndexOf(text: string, sep: char): (at: nat)
    ensures at <= |text| && (at < |text| ==> text[at] == sep)
    ensures forall i :: 0 <= i < at ==> text[i] != sep
  {
    if text == "" || text[0] == sep then 0
    else
      var rest := text[1..];
      assert forall i :: 0 < i < |text| ==> text[i] == rest[i - 1];
      IndexOf(rest, sep) + 1
  }

  // ---- GUIDs ----------------------------------------------------------------------------

  const GROUPS: seq<nat> := [8, 4, 4, 4, 12]

  predicate IsHexDigit(c: char) {
    '0' <= c <= '9' || 'a' <= c <= 'f' || 'A' <= c <= 'F'
  }

  predicate AllHex(text: string) {
    forall i :: 0 <= i < |text| ==> IsHexDigit(text[i])
  }

  predicate IsDashPlace(i: int) {
    i == 8 || i == 13 || i == 18 || i == 23
  }

  /** 36 characters, dashes at four places and hexadecimal digits at all others. */
  predicate IsGuid(text: string) {
    |text| == 36 && GuidUpTo(text, 36)
  }

  predicate GuidUpTo(text: string, n: nat)
    requires n <= |text|
  {
    forall i :: 0 <= i < n ==> if IsDashPlace(i) then text[i] == '-' else IsHexDigit(text[i])
  }

  /** Where group `k` starts. */
  function GroupStart(k: nat): nat {
    if k == 0 then 0 else if k < 5 then 4 + 5 * k else 37
  }

  /** The first `k` groups are right, and unless the text has ended the next one starts at `at`. */
  predicate GroupsUpTo(text: string, k: nat, at: nat, more: bool) {
    && at == (if more then GroupStart(k) else GroupStart(k) - 1)
    && at <= |text| && (!more ==> at == |text|) && (!(more && k == 5) ==> GuidUpTo(text, at))
  }

  /** The part of a text up to the next dash. */
  function NextPart(text: string, at: nat): string
    requires at <= |text|
  {
    text[at..][..IndexOf(text[at..], '-')]
  }

  lemma GroupIsDone(text: string, k: nat, at: nat)
    requires k < 5 && GroupsUpTo(text, k, at, true)
    requires |NextPart(text, at)| == GROUPS[k] && AllHex(NextPart(text, at))
    ensures var end := at + GROUPS[k];
            end <= |text| && GroupsUpTo(text, k + 1, if end < |text| then end + 1 else |text|, end < |text|)
  {
    var part := NextPart(text, at);
    assert forall i :: at <= i < at + |part| ==> text[i] == part[i - at];
  }

  /** Takes the text apart at its dashes and looks at one part after another. */
  method LooksLikeGuid(text: string) returns (ok: bool)
    ensures ok <==> IsGuid(text)
  {
    var at: nat := 0;
    var more := true;
    for k := 0 to 5
      invariant GroupsUpTo(text, k, at, more)
    {
      if !more {
        return false;
      }
      var part := NextPart(text, at);
      if IsGuid(text) {
        GroupIsRight(text, k, at);
      }
      if |part| != GROUPS[k] || !AllHex(part) {
        return false;
      }
      GroupIsDone(text, k, at);
      more := at + |part| < |text|;
      at := if more then at + |part| + 1 else |text|;
    }
    return !more;
  }

  /** The next part of a GUID is the next group. */
  lemma GroupIsRight(text: string, k: nat, at: nat)
    requires IsGuid(text) && k < 5 && at == GroupStart(k)
    ensures |NextPart(text, at)| == GROUPS[k] && AllHex(NextPart(text, at))
  {
    var rest, g := text[at..], GROUPS[k];
    assert at + g < 36 ==> IsDashPlace(at + g) && rest[g] == text[at + g] == '-';
    forall i | 0 <= i < g
      ensures IsHexDigit(rest[i])
    {
      assert rest[i] == text[at + i] && !IsDashPlace(at + i);
    }
    assert IndexOf(rest, '-') == g;
  }

  /** The GUID of nothing but zeros. */
  function NilGuid(): (guid: string)
    ensures IsGuid(guid)
  {
    seq(36, i requires 0 <= i < 36 => if IsDashPlace(i) then '-' else '0')
  }

  // ---- names and paths --------------------------------------------------------------------

  predicate IsNameChar(c: char) {
    'a' <= c <= 'z' || '0' <= c <= '9' || c == '-' || c == '_'
  }

  /** Safe to use as the name of one directory. */
  predicate IsSafeComponent(name: string) {
    0 < |name| <= 64 && forall i :: 0 <= i < |name| ==> IsNameChar(name[i])
  }

  predicate IsSafeSegment(segment: string) {
    segment != "" && segment != "." && segment != ".." &&
    forall i :: 0 <= i < |segment| ==> IsNameChar(segment[i]) || segment[i] == '.'
  }

  /** What lies between two slashes of the path, or between one and an end of it. */
  predicate IsSegment(path: string, from: nat, to: nat) {
    && from <= to <= |path|
    && (from == 0 || path[from - 1] == '/') && (to == |path| || path[to] == '/')
    && forall i :: from <= i < to ==> path[i] != '/'
  }

  /** Safe to follow from the backup folder: every segment is. */
  predicate IsSafeRelativePath(path: string) {
    |path| <= 256 &&
    forall from, to :: 0 <= from <= |path| && from <= to <= |path| && IsSegment(path, from, to) ==>
      IsSafeSegment(path[from..to])
  }

  /** A single safe segment is a safe path. */
  lemma SegmentIsSafePath(path: string)
    requires |path| <= 256 && IsSafeSegment(path)
    ensures IsSafeRelativePath(path)
  {
    assert path[0..|path|] == path;
  }
}
