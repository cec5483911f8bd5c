/**
 * The gold layer: the binary escalation label derived from two validated
 * fields, the light normalisation of the narrative text, and their in-place
 * application to the whole silver table.
 */
module GoldLayer {
  import opened Wrappers
  import opened Entities
  import opened Ingestion

  // ---------------------------------------------------------------------------
  // Label rule
  // ---------------------------------------------------------------------------

  /** The escalation label of one row: disputed by the consumer, or answered late. */
  function EscalationRisk(consumerDisputed: Option<string>, timelyResponse: string): (risk: int)
    ensures risk == 0 || risk == 1
  {
    if consumerDisputed == Some("Yes") || timelyResponse == "No" then 1 else 0
  }

  /**
   * On values that passed the record validators, the label is 0 exactly for
   * a timely response the consumer did not dispute (no dispute recorded,
   * "No" or "N/A"), and it always passes the featured-record check.
   */
  lemma LabelOnValidatedValues(consumerDisputed: Option<string>, timelyResponse: string)
    requires CheckTimelyResponse(timelyResponse).Success?
    requires CheckConsumerDisputed(consumerDisputed).Success?
    ensures var risk := EscalationRisk(consumerDisputed, timelyResponse);
      && (risk == 0 <==> timelyResponse == "Yes" && consumerDisputed in {None, Some("No"), Some("N/A")})
      && (risk == 1 <==> timelyResponse == "No" || consumerDisputed == Some("Yes"))
      && CheckEscalationRisk(risk) == Success(risk)
  {
  }

  // ---------------------------------------------------------------------------
  // Narrative normalisation (ASCII): lower-case, collapse whitespace runs, strip
  // ---------------------------------------------------------------------------

  /** Whitespace as Python's `str.isspace` and the regular-expression class `\s` see it, restricted to ASCII. */
  predicate IsSpace(c: char) {
    9 <= c as int <= 13 || 28 <= c as int <= 32
  }

  predicate IsUpper(c: char) {
    'A' <= c <= 'Z'
  }

  ghost predicate NoUpper(s: string) {
    forall i :: 0 <= i < |s| ==> !IsUpper(s[i])
  }

  /** Position `i` holds no whitespace other than a plain space that follows a non-space. */
  predicate SpaceOk(s: string, i: nat)
    requires i < |s|
  {
    IsSpace(s[i]) ==> s[i] == ' ' && i > 0 && !IsSpace(s[i - 1])
  }

  /**
   * Every whitespace character is a plain space, none starts the string and
   * no two are adjacent.
   */
  ghost predicate SingleSpaced(s: string) {
    forall i :: 0 <= i < |s| ==> SpaceOk(s, i)
  }

  /** No whitespace at the end (`SingleSpaced` already rules it out at the start). */
  ghost predicate Trimmed(s: string) {
    s != [] ==> !IsSpace(s[|s| - 1])
  }

  function Lower(c: char): (l: char)
    ensures !IsUpper(l)
    ensures !IsUpper(c) ==> l == c
  {
    if IsUpper(c) then (c as int + 32) as char else c
  }

  /** `str.lower()` on ASCII letters. */
  function LowerCase(s: string): (t: string)
    ensures |t| == |s| && NoUpper(t)
    ensures forall i :: 0 <= i < |s| ==> t[i] == Lower(s[i])
    ensures NoUpper(s) ==> t == s
  {
    seq(|s|, i requires 0 <= i < |s| => Lower(s[i]))
  }

  /** Drops the leading whitespace: `str.lstrip()`. */
  function SkipSpaces(s: string): (t: string)
    ensures |t| <= |s| && t == s[|s| - |t|..]
    ensures forall i :: 0 <= i < |s| - |t| ==> IsSpace(s[i])
    ensures t == [] || !IsSpace(t[0])
    ensures s != [] && IsSpace(s[0]) ==> |t| < |s|
    ensures s != [] && !IsSpace(s[0]) ==> t == s
  {
    if s != [] && IsSpace(s[0]) then SkipSpaces(s[1..]) else s
  }

  /** Drops the trailing whitespace: `str.rstrip()`. */
  function StripRight(s: string): (t: string)
    ensures |t| <= |s| && t == s[..|t|]
    ensures forall i :: |t| <= i < |s| ==> IsSpace(s[i])
    ensures t == [] || !IsSpace(t[|t| - 1])
    ensures s != [] && !IsSpace(s[0]) ==> t != [] && t[0] == s[0]
  {
    if s != [] && IsSpace(s[|s| - 1]) then StripRight(s[..|s| - 1]) else s
  }

  /** Replaces every maximal run of whitespace by one space: `re.sub(r'\s+', ' ', s)`. */
  function Collapse(s: string): (t: string)
    ensures |t| <= |s|
    ensures (t == []) == (s == [])
    ensures s != [] ==> (IsSpace(t[0]) <==> IsSpace(s[0]))
    decreases |s|
  {
    if s == [] then []
    else if IsSpace(s[0]) then [' '] + Collapse(SkipSpaces(s))
    else [s[0]] + Collapse(s[1..])
  }

  /**
   * Prefixing a character to a string spaced correctly past its first
   * character keeps it so, provided a leading space of the string is plain
   * and follows a non-space; the result is single-spaced when the character
   * is no space.
   */
  lemma ConsKeepsShape(x: char, c: string)
    requires forall i :: 0 < i < |c| ==> SpaceOk(c, i)
    requires c != [] && IsSpace(c[0]) ==> c[0] == ' ' && !IsSpace(x)
    ensures forall i :: 0 < i < |[x] + c| ==> SpaceOk([x] + c, i)
    ensures !IsSpace(x) ==> SingleSpaced([x] + c)
    ensures NoUpper(c) && !IsUpper(x) ==> NoUpper([x] + c)
  {
    var t := [x] + c;
    forall i | 1 <= i < |t| ensures SpaceOk(t, i) {
      assert t[i] == c[i - 1] && t[i - 1] == if i == 1 then x else c[i - 2];
      if i > 1 {
        assert SpaceOk(c, i - 1);
      }
    }
    assert SpaceOk(t, 0) == !IsSpace(x);
    if NoUpper(c) && !IsUpper(x) {
      forall i | 0 <= i < |t| ensures !IsUpper(t[i]) {
        if i > 0 {
          assert t[i] == c[i - 1];
        }
      }
    }
  }

  /** A suffix of a string without upper-case letters has none either. */
  lemma NoUpperSuffix(s: string, off: nat)
    requires off <= |s| && NoUpper(s)
    ensures NoUpper(s[off..])
  {
    forall i | 0 <= i < |s| - off ensures !IsUpper(s[off..][i]) {
      assert s[off..][i] == s[off + i];
    }
  }

  /**
   * Collapsing leaves every whitespace run a single plain space (a leading
   * one excepted) and brings in no upper-case letter.
   */
  lemma {:induction false} CollapseShape(s: string)
    ensures forall i :: 0 < i < |Collapse(s)| ==> SpaceOk(Collapse(s), i)
    ensures s != [] && !IsSpace(s[0]) ==> SingleSpaced(Collapse(s))
    ensures NoUpper(s) ==> NoUpper(Collapse(s))
    decreases |s|
  {
    if s == [] {
    } else if IsSpace(s[0]) {
      var r := SkipSpaces(s);
      CollapseShape(r);
      if NoUpper(s) {
        NoUpperSuffix(s, |s| - |r|);
      }
      ConsKeepsShape(' ', Collapse(r));
    } else {
      var r := s[1..];
      CollapseShape(r);
      if NoUpper(s) {
        NoUpperSuffix(s, 1);
      }
      var c := Collapse(r);
      assert c != [] && IsSpace(c[0]) ==> c[0] == ' ' && !IsSpace(s[0]);
      ConsKeepsShape(s[0], c);
    }
  }

  /**
   * The narrative as the gold layer stores it: lower-cased, with whitespace
   * runs collapsed to one space and both ends stripped.
   */
  function NormalizeNarrative(s: string): (t: string)
    ensures |t| <= |s|
  {
    StripRight(SkipSpaces(Collapse(LowerCase(s))))
  }

  /** Dropping the leading whitespace of a collapsed string leaves it single-spaced. */
  lemma SkipSpacesShape(c: string)
    requires forall i :: 0 < i < |c| ==> SpaceOk(c, i)
    ensures SingleSpaced(SkipSpaces(c))
    ensures NoUpper(c) ==> NoUpper(SkipSpaces(c))
  {
    var k := SkipSpaces(c);
    SpacedSuffix(c, |c| - |k|);
  }

  /** A suffix of a string spaced correctly past its first character, starting at a non-space, is single-spaced. */
  lemma SpacedSuffix(c: string, off: nat)
    requires off <= |c| && forall i :: 0 < i < |c| ==> SpaceOk(c, i)
    requires off < |c| ==> !IsSpace(c[off])
    ensures SingleSpaced(c[off..])
    ensures NoUpper(c) ==> NoUpper(c[off..])
  {
    var k := c[off..];
    forall i | 0 <= i < |k| ensures SpaceOk(k, i) {
      if i > 0 {
        assert k[i] == c[off + i] && k[i - 1] == c[off + i - 1];
        assert SpaceOk(c, off + i);
      } else {
        assert k[0] == c[off];
      }
    }
    if NoUpper(c) {
      forall i | 0 <= i < |k| ensures !IsUpper(k[i]) {
        assert k[i] == c[off + i];
      }
    }
  }

  /** A prefix of a single-spaced string is single-spaced. */
  lemma PrefixShape(k: string, n: nat)
    requires n <= |k| && SingleSpaced(k)
    ensures SingleSpaced(k[..n])
    ensures NoUpper(k) ==> NoUpper(k[..n])
  {
    var r := k[..n];
    forall i | 0 <= i < n ensures SpaceOk(r, i) && r[i] == k[i] {
      assert SpaceOk(k, i);
      if i > 0 {
        assert r[i - 1] == k[i - 1];
      }
    }
  }

  /**
   * A normalised narrative holds no upper-case letter, no whitespace other
   * than plain spaces, no two adjacent whitespace characters and no
   * whitespace at either end.
   */
  lemma NormalizedShape(s: string)
    ensures NoUpper(NormalizeNarrative(s)) && SingleSpaced(NormalizeNarrative(s)) && Trimmed(NormalizeNarrative(s))
  {
    var l := LowerCase(s);
    var c := Collapse(l);
    CollapseShape(l);
    var k := SkipSpaces(c);
    SkipSpacesShape(c);
    StripRightShape(k);
    assert NormalizeNarrative(s) == StripRight(k);
  }

  /** Dropping the trailing whitespace of a single-spaced string leaves it single-spaced and trimmed. */
  lemma StripRightShape(k: string)
    requires SingleSpaced(k)
    ensures SingleSpaced(StripRight(k)) && Trimmed(StripRight(k))
    ensures NoUpper(k) ==> NoUpper(StripRight(k))
  {
    PrefixShape(k, |StripRight(k)|);
  }

  /** The shape of a normalised narrative, spelled out character by character. */
  lemma NormalizedIsClean(s: string)
    ensures var t := NormalizeNarrative(s);
      && (forall i :: 0 <= i < |t| ==> !IsUpper(t[i]))
      && (t != [] ==> !IsSpace(t[0]) && !IsSpace(t[|t| - 1]))
      && (forall i :: 0 <= i < |t| && IsSpace(t[i]) ==> t[i] == ' ')
      && (forall i, j :: 0 <= i && j == i + 1 && j < |t| ==> !(IsSpace(t[i]) && IsSpace(t[j])))
  {
    NormalizedShape(s);
    ShapeSpelledOut(NormalizeNarrative(s));
  }

  /** The three shape predicates, read character by character. */
  lemma ShapeSpelledOut(t: string)
    requires NoUpper(t) && SingleSpaced(t) && Trimmed(t)
    ensures forall i :: 0 <= i < |t| ==> !IsUpper(t[i])
    ensures t != [] ==> !IsSpace(t[0]) && !IsSpace(t[|t| - 1])
    ensures forall i :: 0 <= i < |t| && IsSpace(t[i]) ==> t[i] == ' '
    ensures forall i, j :: 0 <= i && j == i + 1 && j < |t| ==> !(IsSpace(t[i]) && IsSpace(t[j]))
  {
    forall i, j | 0 <= i && j == i + 1 && j < |t| ensures !(IsSpace(t[i]) && IsSpace(t[j])) {
      assert SpaceOk(t, j);
    }
    forall i | 0 <= i < |t| && IsSpace(t[i]) ensures t[i] == ' ' {
      assert SpaceOk(t, i);
    }
    if t != [] {
      assert SpaceOk(t, 0);
    }
  }

  // Reference definition: `' '.join(s.split())`.

  /** The whitespace-separated words of `s`: `str.split()` with no argument. */
  function Words(s: string): (ws: seq<string>)
    ensures s != [] && !IsSpace(s[0]) ==> ws != []
    decreases |s|
  {
    if s == [] then []
    else if IsSpace(s[0]) then Words(s[1..])
    else if |s| == 1 || IsSpace(s[1]) then [[s[0]]] + Words(s[1..])
    else var rest := Words(s[1..]); [[s[0]] + rest[0]] + rest[1..]
  }

  /** The words joined by single spaces: `' '.join(ws)`. */
  function Join(ws: seq<string>): string {
    if ws == [] then []
    else if |ws| == 1 then ws[0]
    else ws[0] + [' '] + Join(ws[1..])
  }

  lemma {:induction false} WordsSkipSpaces(s: string)
    ensures Words(SkipSpaces(s)) == Words(s)
    decreases |s|
  {
    if s != [] && IsSpace(s[0]) {
      WordsSkipSpaces(s[1..]);
    }
  }

  /** Collapsing whitespace runs does not change the words. */
  lemma {:induction false} WordsCollapse(s: string)
    ensures Words(Collapse(s)) == Words(s)
    decreases |s|
  {
    if s == [] {
    } else if IsSpace(s[0]) {
      var r := SkipSpaces(s);
      WordsCollapse(r);
      WordsSkipSpaces(s);
      var c := Collapse(r);
      assert ([' '] + c)[1..] == c;
    } else {
      var c := Collapse(s[1..]);
      WordsCollapse(s[1..]);
      var t := [s[0]] + c;
      assert t[1..] == c;
      assert c != [] ==> t[1] == c[0];
    }
  }

  /** A trailing whitespace character does not change the words. */
  lemma {:induction false} WordsAppendSpace(x: string, c: char)
    requires IsSpace(c)
    ensures Words(x + [c]) == Words(x)
    decreases |x|
  {
    var t := x + [c];
    if x == [] {
      assert t[1..] == [];
    } else {
      assert t[0] == x[0] && t[1..] == x[1..] + [c];
      WordsAppendSpace(x[1..], c);
      if |x| > 1 {
        assert t[1] == x[1];
      }
    }
  }

  lemma {:induction false} WordsStripRight(s: string)
    ensures Words(StripRight(s)) == Words(s)
    decreases |s|
  {
    if s != [] && IsSpace(s[|s| - 1]) {
      var x := s[..|s| - 1];
      assert s == x + [s[|s| - 1]];
      WordsAppendSpace(x, s[|s| - 1]);
      WordsStripRight(x);
    }
  }

  /** Dropping a prefix that ends in a non-space keeps a string single-spaced and trimmed. */
  lemma SuffixKeepsShape(t: string, k: nat)
    requires SingleSpaced(t) && Trimmed(t) && 0 < k < |t| && !IsSpace(t[k])
    ensures SingleSpaced(t[k..]) && Trimmed(t[k..])
  {
    var u := t[k..];
    forall i | 0 <= i < |u| ensures SpaceOk(u, i) {
      assert u[i] == t[k + i] && SpaceOk(t, k + i);
      if i > 0 {
        assert u[i - 1] == t[k + i - 1];
      }
    }
  }

  /** A trimmed, single-spaced string is the join of its own words. */
  lemma {:induction false} CleanIsJoinOfWords(t: string)
    requires SingleSpaced(t) && Trimmed(t)
    ensures Join(Words(t)) == t
    decreases |t|
  {
    if t == [] || |t| == 1 {
      if |t| == 1 {
        assert t[1..] == [];
      }
    } else if IsSpace(t[1]) {
      var u := t[2..];
      assert SpaceOk(t, 1) && SpaceOk(t, 0);
      assert |t| > 2 && !IsSpace(t[2]) by {
        if |t| > 2 {
          assert SpaceOk(t, 2);
        }
      }
      SuffixKeepsShape(t, 2);
      CleanIsJoinOfWords(u);
      assert t[1..][1..] == u;
      var ws := Words(u);
      assert Words(t) == [[t[0]]] + ws;
      assert ([[t[0]]] + ws)[1..] == ws;
      assert t == [t[0]] + [' '] + u;
    } else {
      var u := t[1..];
      assert SpaceOk(t, 0);
      SuffixKeepsShape(t, 1);
      CleanIsJoinOfWords(u);
      var rest := Words(u);
      assert Words(t) == [[t[0]] + rest[0]] + rest[1..];
      if |rest| == 1 {
        assert t == [t[0]] + u;
      } else {
        assert ([[t[0]] + rest[0]] + rest[1..])[1..] == rest[1..];
        assert t == [t[0]] + u;
      }
    }
  }

  /** Normalisation is `' '.join(s.lower().split())`. */
  lemma NormalizeIsJoinOfWords(s: string)
    ensures NormalizeNarrative(s) == Join(Words(LowerCase(s)))
  {
    var l := LowerCase(s);
    var c := Collapse(l);
    WordsCollapse(l);
    WordsSkipSpaces(c);
    WordsStripRight(SkipSpaces(c));
    NormalizedShape(s);
    CleanIsJoinOfWords(NormalizeNarrative(s));
  }

  /** Normalising a normalised narrative changes nothing. */
  lemma NormalizeIdempotent(s: string)
    ensures NormalizeNarrative(NormalizeNarrative(s)) == NormalizeNarrative(s)
  {
    var t := NormalizeNarrative(s);
    NormalizedShape(s);
    NormalizeIsJoinOfWords(t);
    CleanIsJoinOfWords(t);
  }

  // ---------------------------------------------------------------------------
  // The gold table
  // ---------------------------------------------------------------------------

  /** A silver record, its narrative normalised, with its escalation label. */
  datatype GoldRecord = GoldRecord(record: SilverRecord, escalationRisk: int)

  /** The silver table as loaded, to which the label column is added in place. */
  class GoldFrame {
    var records: seq<SilverRecord>
    /** The `escalation_risk` column, absent until the labelling rules ran. */
    var escalationRisk: Option<seq<int>>

    ghost predicate Valid()
      reads this
    {
      escalationRisk.Some? ==> |escalationRisk.value| == |records|
    }

    constructor (silver: seq<SilverRecord>)
      ensures Valid() && records == silver && escalationRisk == None
    {
      records := silver;
      escalationRisk := None;
    }

    /** Adds the label column; every other column, the row count and the row order stay. */
    method ApplyLabelingRules()
      requires Valid()
      modifies this
      ensures Valid() && records == old(records) && escalationRisk.Some?
      ensures forall i :: 0 <= i < |records| ==>
        var risk := escalationRisk.value[i];
        && (risk == 0 || risk == 1)
        && (risk == 1 <==> records[i].consumerDisputed == Some("Yes") || records[i].timelyResponse == "No")
    {
      var rs := records;
      escalationRisk := Some(seq(|rs|, i requires 0 <= i < |rs| => EscalationRisk(rs[i].consumerDisputed, rs[i].timelyResponse)));
    }

    /** Normalises the narrative column; nothing else changes. */
    method PreprocessNarratives()
      requires Valid()
      modifies this
      ensures Valid() && escalationRisk == old(escalationRisk) && |records| == |old(records)|
      ensures forall i :: 0 <= i < |records| ==>
        records[i] == old(records[i]).(narrative := NormalizeNarrative(old(records[i]).narrative))
    {
      var rs := records;
      records := seq(|rs|, i requires 0 <= i < |rs| => rs[i].(narrative := NormalizeNarrative(rs[i].narrative)));
    }
  }

  /**
   * Builds the gold table from the silver rows: same row count and order,
   * every field of a row kept except the narrative, which is normalised, plus
   * the label, which the featured-record check accepts. The gold narratives
   * are already normal, so rebuilding from gold changes no narrative.
   */
  method BuildGoldLayer(silver: seq<SilverRecord>) returns (gold: seq<GoldRecord>)
    ensures |gold| == |silver|
    ensures forall i :: 0 <= i < |silver| ==>
      && gold[i].record == silver[i].(narrative := gold[i].record.narrative)
      && gold[i].record.narrative == NormalizeNarrative(silver[i].narrative)
      && gold[i].escalationRisk == EscalationRisk(silver[i].consumerDisputed, silver[i].timelyResponse)
      && CheckEscalationRisk(gold[i].escalationRisk) == Success(gold[i].escalationRisk)
      && NormalizeNarrative(gold[i].record.narrative) == gold[i].record.narrative
  {
    var df := new GoldFrame(silver);
    df.ApplyLabelingRules();
    df.PreprocessNarratives();
    var rs := df.records;
    var labels := df.escalationRisk.value;
    gold := seq(|rs|, i requires 0 <= i < |rs| => GoldRecord(rs[i], labels[i]));
    forall i | 0 <= i < |silver|
      ensures NormalizeNarrative(gold[i].record.narrative) == gold[i].record.narrative
    {
      NormalizeIdempotent(silver[i].narrative);
    }
  }
}
