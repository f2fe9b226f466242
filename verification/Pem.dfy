/**
 * Certificates in PEM, as sections 2, 3 and 5.1 of RFC 7468 lay it out: the
 * blocks between markers, each the base64 of one certificate.
 *
 * Blocks are found the same way whatever the markers say, so the markers are a
 * parameter; what the round trip needs of them is named in `Usable`.
 */
module Pem {
  import opened Wrappers
  import opened Base64

  type Marker = s: string | s != "" witness "-"

  datatype Markers = Markers(begin: Marker, end: Marker)

  const CERTIFICATE_MARKERS: Markers := Markers("-----BEGIN CERTIFICATE-----", "-----END CERTIFICATE-----")
  const DER_SEQUENCE_TAG: Byte := 0x30

  predicate Usable(m: Markers) {
    '\n' !in m.begin && m.end[0] == '-'
  }

  /** A character carries one byte. */
  function ByteOf(c: char): Byte { c as int % 256 }

  function RawBytes(content: string): (r: seq<Byte>)
    ensures |r| == |content| && forall i :: 0 <= i < |r| ==> r[i] == ByteOf(content[i])
  {
    seq(|content|, i requires 0 <= i < |content| => ByteOf(content[i]))
  }

  // ---------------------------------------------------------------- searching

  /** The text has the marker at position `i`, compared from its last character on. */
  predicate OccursAt(s: string, m: string, i: nat)
    decreases |m|
  {
    if m == "" then i <= |s|
    else
      var n := |m| - 1;
      i + n < |s| && s[i + n] == m[n] && OccursAt(s, m[..n], i)
  }

  lemma {:induction false} OccursMeaning(s: string, m: string, i: nat)
    ensures OccursAt(s, m, i) <==> i + |m| <= |s| && s[i..i + |m|] == m
    decreases |m|
  {
    if m != "" {
      var n := |m| - 1;
      OccursMeaning(s, m[..n], i);
      if i + |m| <= |s| {
        assert s[i..i + |m|] == s[i..i + n] + [s[i + n]];
        assert m == m[..n] + [m[n]];
      }
    }
  }

  /** The first occurrence at or after a position. */
  function Find(s: string, m: string, from: nat): (r: Option<nat>)
    ensures r.Some? ==> from <= r.value <= |s| - |m|
    decreases |s| - from
  {
    if from + |m| > |s| then None
    else if OccursAt(s, m, from) then Some(from)
    else Find(s, m, from + 1)
  }

  lemma {:induction false} FindMeaning(s: string, m: string, from: nat)
    ensures var r := Find(s, m, from);
            if r.Some? then OccursAt(s, m, r.value) && forall k: nat :: from <= k < r.value ==> !OccursAt(s, m, k)
            else forall k: nat :: from <= k ==> !OccursAt(s, m, k)
    decreases |s| - from
  {
    if from + |m| <= |s| {
      if !OccursAt(s, m, from) {
        FindMeaning(s, m, from + 1);
      }
    } else {
      forall k: nat | from <= k ensures !OccursAt(s, m, k) {
        OccursMeaning(s, m, k);
      }
    }
  }

  // ------------------------------------------------------------- what it reads

  /** What stands between the markers, for the blocks that begin at `from` or later. */
  function Bodies(s: string, m: Markers, from: nat): seq<string>
    decreases |s| - from
  {
    var begin := Find(s, m.begin, from);
    if begin.None? then []
    else
      var bodyStart := begin.value + |m.begin|;
      var end := Find(s, m.end, bodyStart);
      if end.None? then []
      else [s[bodyStart..end.value]] + Bodies(s, m, end.value + |m.end|)
  }

  /** The certificates of blocks; one that cannot be decoded, or is empty, gives none. */
  ghost function Blocks(bodies: seq<string>, decode: string -> Option<seq<Byte>>): seq<seq<Byte>> {
    if bodies == [] then []
    else
      var front, last := Blocks(bodies[..|bodies| - 1], decode), decode(bodies[|bodies| - 1]);
      if last.Some? && last.value != [] then front + [last.value] else front
  }

  ghost function Certificates(content: string, m: Markers): seq<seq<Byte>> {
    if Find(content, m.begin, 0).None? && content != "" && ByteOf(content[0]) == DER_SEQUENCE_TAG then [RawBytes(content)]
    else Blocks(Bodies(content, m, 0), Decoded)
  }

  /** One round of the loop: the next block's body and where the search goes on behind it. */
  method NextBlock(content: string, m: Markers, from: nat) returns (body: Option<string>, next: nat)
    ensures body.None? ==> next == from && Bodies(content, m, from) == []
    ensures body.Some? ==> from < next <= |content| && Bodies(content, m, from) == [body.value] + Bodies(content, m, next)
  {
    body, next := None, from;
    var begin := Find(content, m.begin, from);
    if begin.Some? {
      var bodyStart := begin.value + |m.begin|;
      var end := Find(content, m.end, bodyStart);
      if end.Some? {
        BodiesStep(content, m, from, begin.value, end.value);
        body, next := Some(content[bodyStart..end.value]), end.value + |m.end|;
      }
    }
  }

  method DecodeBlocks(content: string, m: Markers) returns (certificates: seq<seq<Byte>>)
    ensures certificates == Blocks(Bodies(content, m, 0), Decoded)
  {
    certificates := [];
    var body, next := NextBlock(content, m, 0);
    ghost var all, n := Bodies(content, m, 0), 0;
    while body.Some?
      invariant next <= |content|
      invariant n <= |all| && certificates == Blocks(all[..n], Decoded)
      invariant body.None? ==> n == |all|
      invariant body.Some? ==> n < |all| && all[n] == body.value && all[n + 1..] == Bodies(content, m, next)
      decreases body.Some?, |content| - next
    {
      certificates := AppendDecoded(all, n, certificates, body.value);
      ghost var rest := all[n + 1..];
      n := n + 1;
      body, next := NextBlock(content, m, next);
      assert body.Some? ==> rest[0] == all[n] && rest[1..] == all[n + 1..];
    }
    assert all[..n] == all;
  }

  method AppendDecoded(ghost all: seq<string>, ghost n: nat, certificates: seq<seq<Byte>>, body: string)
    returns (r: seq<seq<Byte>>)
    requires n < |all| && all[n] == body && certificates == Blocks(all[..n], Decoded)
    ensures r == Blocks(all[..n + 1], Decoded)
  {
    var decoded := DecodeBase64(body);
    assert all[..n + 1][..n] == all[..n];
    r := certificates;
    if decoded.Some? && decoded.value != [] {
      r := r + [decoded.value];
    }
  }

  method Decode(content: string, m: Markers) returns (certificates: seq<seq<Byte>>)
    ensures certificates == Certificates(content, m)
  {
    var begin := Find(content, m.begin, 0);
    if begin.None? && content != "" && ByteOf(content[0]) == DER_SEQUENCE_TAG {
      return [RawBytes(content)];
    }
    certificates := DecodeBlocks(content, m);
  }

  /** DecodeCertificates, for the markers of a certificate. */
  method DecodeCertificates(content: string) returns (certificates: seq<seq<Byte>>)
    ensures certificates == Certificates(content, CERTIFICATE_MARKERS)
  {
    certificates := Decode(content, CERTIFICATE_MARKERS);
  }

  lemma CertificateMarkersUsable()
    ensures Usable(CERTIFICATE_MARKERS)
  {
  }

  // --------------------------------------------------------------- round trip

  /** A block as it is written: text, the marker, base64 with white space in it, the marker. The certificate is empty if
      the block has none. */
  datatype Entry = Entry(gap: string, body: string, certificate: seq<Byte>)

  function Text(entries: seq<Entry>, m: Markers, last: string): string {
    if entries == [] then last
    else entries[0].gap + m.begin + entries[0].body + m.end + Text(entries[1..], m, last)
  }

  /** The certificates that were written, in order. */
  function Written(entries: seq<Entry>): (r: seq<seq<Byte>>) {
    if entries == [] then []
    else
      var e := entries[|entries| - 1];
      Written(entries[..|entries| - 1]) + if e.certificate == [] then [] else [e.certificate]
  }

  function BodiesOf(entries: seq<Entry>): (r: seq<string>)
    ensures |r| == |entries| && forall i :: 0 <= i < |r| ==> r[i] == entries[i].body
  {
    seq(|entries|, i requires 0 <= i < |entries| => entries[i].body)
  }

  ghost predicate Encodes(e: Entry) {
    e.certificate != [] && Spaced(e.body, Encode(e.certificate))
  }

  /** A block that is not base64, or base64 of nothing. Its end marker is the first one behind its begin marker. */
  ghost predicate Broken(e: Entry, end: string) {
    e.certificate == [] && Clear(e.body, end) && (!Clean(e.body) || Decoded(e.body) == Some([]))
  }

  ghost predicate Free(s: string, marker: string) {
    forall k: nat :: k <= |s| ==> !OccursAt(s, marker, k)
  }

  /** Whole lines of text. */
  predicate Lines(gap: string) {
    gap == "" || gap[|gap| - 1] == '\n'
  }

  /** The marker that follows the text is the first one in it. */
  ghost predicate Clear(gap: string, marker: string) {
    forall k: nat :: k < |gap| ==> !OccursAt(gap + marker, marker, k)
  }

  lemma LinesAreClear(gap: string, marker: string)
    requires Lines(gap) && Free(gap, marker) && '\n' !in marker
    ensures Clear(gap, marker)
  {
    forall k: nat | k < |gap| ensures !OccursAt(gap + marker, marker, k) {
      var s := gap + marker;
      OccursMeaning(s, marker, k);
      OccursMeaning(gap, marker, k);
      if k + |marker| <= |gap| {
        assert s[k..k + |marker|] == gap[k..k + |marker|];
        assert !OccursAt(gap, marker, k);
      } else if k + |marker| <= |s| {
        assert s[k..k + |marker|][|gap| - 1 - k] == '\n';
      }
    }
  }

  lemma NoDashes(e: Entry)
    requires Encodes(e)
    ensures '-' !in e.body
  {
    RoundTrip(e.certificate, e.body);
    DecodesExactlyIfClean(e.body);
  }

  /** A slice of a text is the same slice of the part it lies in. */
  lemma OccursInPart(pre: string, part: string, post: string, m: string, k: nat)
    requires k + |m| <= |part|
    ensures OccursAt(pre + part + post, m, |pre| + k) <==> OccursAt(part, m, k)
  {
    var s := pre + part + post;
    OccursMeaning(s, m, |pre| + k);
    OccursMeaning(part, m, k);
    assert s[|pre| + k..|pre| + k + |m|] == part[k..k + |m|];
  }


  lemma FindBegin(pre: string, gap: string, marker: string, post: string)
    requires Clear(gap, marker)
    ensures Find(pre + (gap + marker) + post, marker, |pre|) == Some(|pre| + |gap|)
  {
    var s := pre + (gap + marker) + post;
    forall k: nat | |pre| <= k < |pre| + |gap| ensures !OccursAt(s, marker, k) {
      OccursInPart(pre, gap + marker, post, marker, k - |pre|);
    }
    OccursInPart(pre, gap + marker, post, marker, |gap|);
    OccursMeaning(gap + marker, marker, |gap|);
    assert (gap + marker)[|gap|..|gap| + |marker|] == marker;
    FindMeaning(s, marker, |pre|);
  }

  lemma DashlessIsClear(body: string, marker: string)
    requires '-' !in body && marker != "" && marker[0] == '-'
    ensures Clear(body, marker)
  {
    forall k: nat | k < |body| ensures !OccursAt(body + marker, marker, k) {
      OccursMeaning(body + marker, marker, k);
      if k + |marker| <= |body + marker| {
        assert (body + marker)[k..k + |marker|][0] == body[k];
      }
    }
  }

  lemma BodiesStep(s: string, m: Markers, from: nat, begin: nat, end: nat)
    requires Find(s, m.begin, from) == Some(begin) && Find(s, m.end, begin + |m.begin|) == Some(end)
    ensures Bodies(s, m, from) == [s[begin + |m.begin|..end]] + Bodies(s, m, end + |m.end|)
  {
  }

  lemma EntryFound(pre: string, gap: string, begin: string, body: string, end: string, post: string)
    requires Clear(gap, begin) && Clear(body, end)
    ensures var start := pre + gap + begin; var s := start + body + end + post;
            && Find(s, begin, |pre|) == Some(|pre| + |gap|)
            && Find(s, end, |start|) == Some(|start| + |body|)
            && s[|start|..|start| + |body|] == body
  {
    var start, rest := pre + gap + begin, body + end + post;
    var s := start + body + end + post;
    assert s == pre + (gap + begin) + rest;
    FindBegin(pre, gap, begin, rest);
    assert s == start + (body + end) + post;
    FindBegin(start, body, end, post);
  }

  lemma ReadEntry(s: string, pre: string, gap: string, m: Markers, body: string, post: string, begin: nat, end: nat)
    requires Clear(gap, m.begin) && Clear(body, m.end) && s == pre + gap + m.begin + body + m.end + post
    requires begin == |pre| + |gap| && end == begin + |m.begin| + |body|
    ensures Bodies(s, m, |pre|) == [body] + Bodies(s, m, end + |m.end|)
  {
    assert Find(s, m.begin, |pre|) == Some(begin) && Find(s, m.end, begin + |m.begin|) == Some(end)
           && s[begin + |m.begin|..end] == body by {
      EntryFound(pre, gap, m.begin, body, m.end, post);
    }
    BodyFound(s, m, |pre|, begin, end, body);
  }

  lemma BodyFound(s: string, m: Markers, from: nat, begin: nat, end: nat, body: string)
    requires Find(s, m.begin, from) == Some(begin) && Find(s, m.end, begin + |m.begin|) == Some(end)
    requires s[begin + |m.begin|..end] == body
    ensures Bodies(s, m, from) == [body] + Bodies(s, m, end + |m.end|)
  {
    BodiesStep(s, m, from, begin, end);
  }

  lemma NotBehind(pre: string, last: string, marker: string, k: nat)
    requires Free(last, marker) && |pre| <= k
    ensures !OccursAt(pre + last, marker, k)
  {
    OccursMeaning(pre + last, marker, k);
    if k + |marker| <= |pre + last| {
      OccursInPart(pre, last, "", marker, k - |pre|);
      assert pre + last + "" == pre + last;
    }
  }

  lemma NothingBehind(pre: string, m: Markers, last: string)
    requires Free(last, m.begin)
    ensures Bodies(pre + last, m, |pre|) == []
  {
    FindMeaning(pre + last, m.begin, |pre|);
    var r := Find(pre + last, m.begin, |pre|);
    if r.Some? {
      NotBehind(pre, last, m.begin, r.value);
    }
  }

  /** An entry, by what the search needs of it. */
  ghost predicate Findable(e: Entry, m: Markers) {
    Clear(e.gap, m.begin) && Clear(e.body, m.end)
  }

  lemma {:induction false} ReadEntries(pre: string, entries: seq<Entry>, m: Markers, last: string)
    requires Free(last, m.begin)
    requires forall i :: 0 <= i < |entries| ==> Findable(entries[i], m)
    ensures Bodies(pre + Text(entries, m, last), m, |pre|) == BodiesOf(entries)
    decreases |entries|
  {
    if entries == [] {
      NothingBehind(pre, m, last);
    } else {
      var e, rest := entries[0], Text(entries[1..], m, last);
      var head := pre + e.gap + m.begin + e.body + m.end;
      assert pre + Text(entries, m, last) == head + rest;
      assert Findable(e, m);
      var begin := |pre| + |e.gap|;
      ReadEntry(head + rest, pre, e.gap, m, e.body, rest, begin, begin + |m.begin| + |e.body|);
      assert |head| == begin + |m.begin| + |e.body| + |m.end|;
      ReadEntries(head, entries[1..], m, last);
      assert BodiesOf(entries) == [e.body] + BodiesOf(entries[1..]);
    }
  }

  lemma {:induction false} DecodeEntries(entries: seq<Entry>, decode: string -> Option<seq<Byte>>)
    requires forall i :: 0 <= i < |entries| ==>
               if entries[i].certificate != [] then decode(entries[i].body) == Some(entries[i].certificate)
               else decode(entries[i].body) in {None, Some([])}
    ensures Blocks(BodiesOf(entries), decode) == Written(entries)
  {
    if entries != [] {
      var n := |entries| - 1;
      DecodeEntries(entries[..n], decode);
      assert BodiesOf(entries)[..n] == BodiesOf(entries[..n]);
      if entries[n].certificate == [] { assert Written(entries[..n]) + [] == Written(entries[..n]); }
    }
  }

  /**
   * Any list of non-empty certificates, each in base64 with spaces, tabs and
   * line ends anywhere, with marker-free lines of text before each and
   * marker-free text behind the last, is read back as that list, whatever
   * blocks that are no base64 or empty stand between them; the one exception is
   * a text without any block, which is a DER certificate if it starts as one.
   */
  lemma CertificatesRoundTrip(entries: seq<Entry>, last: string)
    requires forall i :: 0 <= i < |entries| ==>
               && (Encodes(entries[i]) || Broken(entries[i], "-----END CERTIFICATE-----"))
               && Lines(entries[i].gap) && Free(entries[i].gap, "-----BEGIN CERTIFICATE-----")
    requires Free(last, "-----BEGIN CERTIFICATE-----")
    ensures Certificates(
              Text(entries, Markers("-----BEGIN CERTIFICATE-----", "-----END CERTIFICATE-----"), last),
              CERTIFICATE_MARKERS) ==
            if entries == [] && last != "" && ByteOf(last[0]) == 0x30 then [RawBytes(last)] else Written(entries)
  {
    CertificateMarkersUsable();
    forall i | 0 <= i < |entries| ensures Readable(entries[i], CERTIFICATE_MARKERS) {
      LinesAreClear(entries[i].gap, CERTIFICATE_MARKERS.begin);
    }
    AnyRoundTrip(entries, CERTIFICATE_MARKERS, last);
  }

  ghost predicate Readable(e: Entry, m: Markers) {
    (Encodes(e) || Broken(e, m.end)) && Clear(e.gap, m.begin)
  }

  lemma ReadableDecodes(e: Entry, m: Markers)
    requires Usable(m) && Readable(e, m)
    ensures Findable(e, m)
    ensures if e.certificate != [] then Decoded(e.body) == Some(e.certificate) else Decoded(e.body) in {None, Some([])}
  {
    if Encodes(e) {
      NoDashes(e);
      DashlessIsClear(e.body, m.end);
      RoundTrip(e.certificate, e.body);
    } else {
      DecodesExactlyIfClean(e.body);
    }
  }

  lemma AnyRoundTrip(entries: seq<Entry>, m: Markers, last: string)
    requires Usable(m) && Free(last, m.begin)
    requires forall i :: 0 <= i < |entries| ==> Readable(entries[i], m)
    ensures Certificates(Text(entries, m, last), m) ==
            if entries == [] && last != "" && ByteOf(last[0]) == DER_SEQUENCE_TAG then [RawBytes(last)]
            else Written(entries)
  {
    var text := Text(entries, m, last);
    BodiesRoundTrip(entries, m, last);
    if entries == [] {
      FindMeaning(last, m.begin, 0);
      assert Find(last, m.begin, 0).None?;
    } else {
      FindsFirst(entries, m, text);
    }
  }

  lemma BodiesRoundTrip(entries: seq<Entry>, m: Markers, last: string)
    requires Usable(m) && Free(last, m.begin)
    requires forall i :: 0 <= i < |entries| ==> Readable(entries[i], m)
    ensures Bodies(Text(entries, m, last), m, 0) == BodiesOf(entries)
    ensures Blocks(BodiesOf(entries), Decoded) == Written(entries)
  {
    forall i | 0 <= i < |entries|
      ensures Findable(entries[i], m)
      ensures if entries[i].certificate != [] then Decoded(entries[i].body) == Some(entries[i].certificate)
              else Decoded(entries[i].body) in {None, Some([])}
    {
      ReadableDecodes(entries[i], m);
    }
    ReadEntries("", entries, m, last);
    assert "" + Text(entries, m, last) == Text(entries, m, last);
    DecodeEntries(entries, Decoded);
  }

  lemma FindsFirst(entries: seq<Entry>, m: Markers, text: string)
    requires Bodies(text, m, 0) == BodiesOf(entries) && entries != []
    ensures Find(text, m.begin, 0).Some?
  {
  }
}
