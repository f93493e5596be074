/** Names of the Kubernetes objects that run a node. The hash is any function into eight
    lowercase hexadecimal digits. */
module KubeNames {
  import opened Pipelines

  const RUN_ID_PREFIX_LEN: nat := 8
  const NODE_NAME_PREFIX_LEN: nat := 24
  const STABLE_HASH_LEN: nat := 8

  predicate Upper(c: char) {
    'A' <= c <= 'Z'
  }

  predicate AsciiAlnum(c: char) {
    Lower(c) || Upper(c) || Digit(c)
  }

  function LabelChar(c: char): char {
    if Upper(c) then (c as int + 32) as char
    else if AsciiAlnum(c) then c
    else '-'
  }

  function LabelChars(s: string): string {
    seq(|s|, i requires 0 <= i < |s| => LabelChar(s[i]))
  }

  /** Upper case is lowered letter by letter, lower case and digits stay, the rest becomes a dash. */
  lemma LabelCharOf(c: char)
    ensures 'A' <= c <= 'Z' ==> LabelChar(c) as int - 'a' as int == c as int - 'A' as int
    ensures 'a' <= c <= 'z' || '0' <= c <= '9' ==> LabelChar(c) == c
    ensures !('a' <= c <= 'z' || '0' <= c <= '9' || 'A' <= c <= 'Z') ==> LabelChar(c) == '-'
  {
  }

  predicate Dashes(s: string) {
    forall i :: 0 <= i < |s| ==> s[i] == '-'
  }

  function TrimStart(s: string): (t: string)
    ensures |t| <= |s| && t == s[|s| - |t|..]
    ensures forall i :: 0 <= i < |s| - |t| ==> s[i] == '-'
    ensures t != "" ==> t[0] != '-'
  {
    if s != "" && s[0] == '-' then TrimStart(s[1..]) else s
  }

  function TrimEnd(s: string): (t: string)
    ensures |t| <= |s| && t == s[..|t|]
    ensures forall i :: |t| <= i < |s| ==> s[i] == '-'
    ensures t != "" ==> t[|t| - 1] != '-'
  {
    if s != "" && s[|s| - 1] == '-' then TrimEnd(s[..|s| - 1]) else s
  }

  function Sanitize(s: string): string {
    TrimEnd(TrimStart(LabelChars(s)))
  }

  function TruncateWithHash(s: string, prefixLen: nat, hash: string -> string): string {
    var sanitized := Sanitize(s);
    if |sanitized| <= prefixLen + 1 + STABLE_HASH_LEN then sanitized
    else TrimEnd(sanitized[..prefixLen]) + "-" + hash(s)
  }

  function ShortRunId(runId: string, hash: string -> string): string {
    TruncateWithHash(runId, RUN_ID_PREFIX_LEN, hash)
  }

  function ShortNodeName(nodeName: string, hash: string -> string): string {
    TruncateWithHash(nodeName, NODE_NAME_PREFIX_LEN, hash)
  }

  function JobLabel(run: string, node: string): string {
    "run-" + run + "-" + node
  }

  function JobName(runId: string, nodeName: string, hash: string -> string): string {
    JobLabel(ShortRunId(runId, hash), ShortNodeName(nodeName, hash))
  }

  function ConfigMapName(runId: string, nodeName: string, hash: string -> string): string {
    JobName(runId, nodeName, hash) + "-script"
  }

  // ---------- what comes out ----------

  predicate IsHash(h: string) {
    && |h| == STABLE_HASH_LEN
    && forall i :: 0 <= i < |h| ==> Digit(h[i]) || 'a' <= h[i] <= 'f'
  }

  predicate LabelText(s: string) {
    forall i :: 0 <= i < |s| ==> LabelAlnum(s[i]) || s[i] == '-'
  }

  /** Empty, or label characters with no dash at either end. */
  predicate Clean(s: string) {
    && LabelText(s)
    && (s != "" ==> LabelAlnum(s[0]) && LabelAlnum(s[|s| - 1]))
  }

  ghost predicate HasAlnum(s: string) {
    exists i :: 0 <= i < |s| && AsciiAlnum(s[i])
  }

  lemma LabelCharIsLabel(c: char)
    ensures LabelAlnum(LabelChar(c)) || LabelChar(c) == '-'
    ensures AsciiAlnum(c) <==> LabelChar(c) != '-'
  {
  }

  lemma TextOfParts(a: string, b: string)
    ensures LabelText(a + b) <==> LabelText(a) && LabelText(b)
  {
    if LabelText(a + b) {
      assert forall i :: 0 <= i < |a| ==> a[i] == (a + b)[i];
      assert forall i :: 0 <= i < |b| ==> b[i] == (a + b)[|a| + i];
    }
  }

  lemma LabelCharsAre(s: string)
    ensures LabelText(LabelChars(s))
    ensures HasAlnum(s) <==> !Dashes(LabelChars(s))
  {
    forall i | 0 <= i < |s|
      ensures LabelAlnum(LabelChars(s)[i]) || LabelChars(s)[i] == '-'
      ensures AsciiAlnum(s[i]) <==> LabelChars(s)[i] != '-'
    {
      LabelCharIsLabel(s[i]);
    }
  }

  /** `text` is what is left of `whole` between leading and trailing dashes. */
  ghost predicate Trimmed(whole: string, text: string, before: string, after: string) {
    && whole == before + text + after
    && Dashes(before) && Dashes(after)
    && (text != "" ==> text[0] != '-' && text[|text| - 1] != '-')
  }

  lemma AssembleTrimmed(whole: string, start: string, text: string)
    requires |start| <= |whole| && start == whole[|whole| - |start|..]
    requires |text| <= |start| && text == start[..|text|]
    requires forall i :: 0 <= i < |whole| - |start| ==> whole[i] == '-'
    requires forall i :: |text| <= i < |start| ==> start[i] == '-'
    requires start != "" ==> start[0] != '-'
    requires text != "" ==> text[|text| - 1] != '-'
    ensures Trimmed(whole, text, whole[..|whole| - |start|], start[|text|..])
  {
  }

  lemma TrimBoth(whole: string) returns (before: string, after: string)
    ensures Trimmed(whole, TrimEnd(TrimStart(whole)), before, after)
  {
    var start := TrimStart(whole);
    var text := TrimEnd(start);
    AssembleTrimmed(whole, start, text);
    before, after := whole[..|whole| - |start|], start[|text|..];
  }

  lemma TrimmedText(whole: string, text: string, before: string, after: string)
    requires Trimmed(whole, text, before, after) && LabelText(whole)
    ensures Clean(text)
    ensures text == "" <==> Dashes(whole)
  {
    TextOfParts(before + text, after);
    TextOfParts(before, text);
    if text == "" {
      assert before + text == before;
    } else {
      assert (before + text)[|before|] == text[0];
      assert whole[|before|] == text[0];
    }
  }

  /** The text between the dashes; empty exactly when the name has no letter and no digit. */
  lemma SanitizeIsClean(s: string)
    ensures Clean(Sanitize(s))
    ensures Sanitize(s) != "" <==> HasAlnum(s)
    ensures exists before, after :: Trimmed(LabelChars(s), Sanitize(s), before, after)
  {
    LabelCharsAre(s);
    var before, after := TrimBoth(LabelChars(s));
    TrimmedText(LabelChars(s), Sanitize(s), before, after);
  }

  lemma HashedIsClean(sanitized: string, prefixLen: nat, h: string)
    requires Clean(sanitized) && 0 < prefixLen < |sanitized| && IsHash(h)
    ensures var r := TrimEnd(sanitized[..prefixLen]) + "-" + h;
      && Clean(r)
      && 0 < |r| <= prefixLen + 1 + STABLE_HASH_LEN
  {
  }

  lemma TruncateIsClean(s: string, prefixLen: nat, hash: string -> string)
    requires forall t :: IsHash(hash(t))
    requires prefixLen > 0
    ensures var r := TruncateWithHash(s, prefixLen, hash);
      && Clean(r)
      && |r| <= prefixLen + 1 + STABLE_HASH_LEN
      && (r != "" <==> HasAlnum(s))
  {
    SanitizeIsClean(s);
    if |Sanitize(s)| > prefixLen + 1 + STABLE_HASH_LEN {
      assert IsHash(hash(s));
      HashedIsClean(Sanitize(s), prefixLen, hash(s));
    }
  }

  /** A long name is cut to a prefix, less the dashes at its end, and marked with the hash of the
      whole name as it was given; any other name is only sanitized. */
  lemma TruncateShape(s: string, prefixLen: nat, hash: string -> string)
    ensures |Sanitize(s)| <= prefixLen + 9 ==> TruncateWithHash(s, prefixLen, hash) == Sanitize(s)
    ensures |Sanitize(s)| > prefixLen + 9 ==>
      exists k :: && 0 <= k <= prefixLen && TruncateWithHash(s, prefixLen, hash) == Sanitize(s)[..k] + "-" + hash(s)
                  && Dashes(Sanitize(s)[k..prefixLen]) && (k > 0 ==> Sanitize(s)[k - 1] != '-')
  {
    hide Sanitize;
    if |Sanitize(s)| > prefixLen + 9 {
      var prefix := Sanitize(s)[..prefixLen];
      var k := |TrimEnd(prefix)|;
      assert TrimEnd(prefix) == Sanitize(s)[..k];
    }
  }

  lemma JobLabelText(run: string, node: string)
    requires Clean(run) && Clean(node)
    ensures var name := JobLabel(run, node);
      && LabelText(name)
      && |name| == |run| + |node| + 5
      && name[0] == 'r'
      && name[|name| - 1] == if node == "" then '-' else node[|node| - 1]
  {
  }

  lemma JobLabelIsValid(run: string, node: string)
    requires Clean(run) && Clean(node) && |run| <= 17 && |node| <= 33
    ensures |JobLabel(run, node)| <= 55
    ensures IsValidDns1123Label(JobLabel(run, node)) <==> node != ""
  {
  }

  /** A job name always fits and is a valid label exactly when the node name has a letter or a
      digit; the run id does not matter. */
  lemma JobNameIsValid(runId: string, nodeName: string, hash: string -> string)
    requires forall t :: IsHash(hash(t))
    ensures var name := JobName(runId, nodeName, hash);
      && |name| <= 55
      && (IsValidDns1123Label(name) <==> HasAlnum(nodeName))
  {
    TruncateIsClean(runId, RUN_ID_PREFIX_LEN, hash);
    TruncateIsClean(nodeName, NODE_NAME_PREFIX_LEN, hash);
    JobLabelIsValid(ShortRunId(runId, hash), ShortNodeName(nodeName, hash));
  }

  lemma WithScript(name: string)
    requires LabelText(name) && 0 < |name| <= 55 && LabelAlnum(name[0])
    ensures |name + "-script"| == |name| + 7
    ensures IsValidDns1123Label(name + "-script")
  {
  }

  /** The config map name ends in a word, so it is valid for every node name. */
  lemma ConfigMapNameIsValid(runId: string, nodeName: string, hash: string -> string)
    requires forall t :: IsHash(hash(t))
    ensures |ConfigMapName(runId, nodeName, hash)| <= 62
    ensures IsValidDns1123Label(ConfigMapName(runId, nodeName, hash))
  {
    TruncateIsClean(runId, RUN_ID_PREFIX_LEN, hash);
    TruncateIsClean(nodeName, NODE_NAME_PREFIX_LEN, hash);
    JobLabelText(ShortRunId(runId, hash), ShortNodeName(nodeName, hash));
    WithScript(JobName(runId, nodeName, hash));
  }

  lemma LabelTextIsKept(s: string)
    requires LabelText(s)
    ensures LabelChars(s) == s
  {
  }

  lemma CleanIsKept(s: string)
    requires Clean(s)
    ensures Sanitize(s) == s
  {
    LabelTextIsKept(s);
    if s != "" {
      assert s[0] != '-' && s[|s| - 1] != '-';
    }
  }

  lemma ShortCleanIsKept(s: string, prefixLen: nat, hash: string -> string)
    requires Clean(s) && |s| <= prefixLen + 1 + STABLE_HASH_LEN
    ensures TruncateWithHash(s, prefixLen, hash) == s
  {
    CleanIsKept(s);
  }

  /** A node name that is already a short label passes through unchanged, so two such nodes of
      one run never share a job. */
  lemma ShortLabelsNeverShareAJob(nodeName: string, other: string, runId: string, hash: string -> string)
    requires Clean(nodeName) && |nodeName| <= NODE_NAME_PREFIX_LEN + 1 + STABLE_HASH_LEN
    requires Clean(other) && |other| <= NODE_NAME_PREFIX_LEN + 1 + STABLE_HASH_LEN
    ensures nodeName != other ==> JobName(runId, nodeName, hash) != JobName(runId, other, hash)
  {
    ShortCleanIsKept(nodeName, NODE_NAME_PREFIX_LEN, hash);
    ShortCleanIsKept(other, NODE_NAME_PREFIX_LEN, hash);
    SameFront(ShortRunId(runId, hash), nodeName, other);
  }

  lemma SameFront(run: string, node: string, other: string)
    ensures node != other ==> JobLabel(run, node) != JobLabel(run, other)
  {
    var front := "run-" + run + "-";
    assert (front + node)[|front|..] == node;
    assert (front + other)[|front|..] == other;
  }

  lemma LabelDetermines(run: string, node: string, otherRun: string, otherNode: string)
    requires |run| == |otherRun| && JobLabel(run, node) == JobLabel(otherRun, otherNode)
    ensures run == otherRun && node == otherNode
  {
    assert JobLabel(run, node) == "run-" + (run + ("-" + node));
    assert JobLabel(otherRun, otherNode) == "run-" + (otherRun + ("-" + otherNode));
    assert JobLabel(run, node)[4..4 + |run|] == run && JobLabel(otherRun, otherNode)[4..4 + |run|] == otherRun;
    assert JobLabel(run, node)[5 + |run|..] == node && JobLabel(otherRun, otherNode)[5 + |run|..] == otherNode;
  }

  /** For run ids with short forms of one length the job name determines both short forms. */
  lemma JobNameDetermines(runId: string, nodeName: string, otherRun: string, otherNode: string, hash: string -> string)
    requires |ShortRunId(runId, hash)| == |ShortRunId(otherRun, hash)|
    requires JobName(runId, nodeName, hash) == JobName(otherRun, otherNode, hash)
    ensures ShortRunId(runId, hash) == ShortRunId(otherRun, hash)
    ensures ShortNodeName(nodeName, hash) == ShortNodeName(otherNode, hash)
  {
    hide TruncateWithHash;
    LabelDetermines(ShortRunId(runId, hash), ShortNodeName(nodeName, hash),
                    ShortRunId(otherRun, hash), ShortNodeName(otherNode, hash));
  }

  /** A label too long to keep whose first eight characters have no dash at the end, such as a UUID. */
  predicate LongRunId(runId: string) {
    Clean(runId) && |runId| > 17 && runId[7] != '-'
  }

  /** Two such runs share a job only if their prefixes and their hashes are the same. */
  lemma LongRunsShareAJob(runId: string, nodeName: string, otherRun: string, otherNode: string, hash: string -> string)
    requires LongRunId(runId) && LongRunId(otherRun) && forall t :: IsHash(hash(t))
    requires JobName(runId, nodeName, hash) == JobName(otherRun, otherNode, hash)
    ensures runId[..8] == otherRun[..8] && hash(runId) == hash(otherRun)
    ensures ShortNodeName(nodeName, hash) == ShortNodeName(otherNode, hash)
  {
    LongRunIsCut(runId, hash);
    LongRunIsCut(otherRun, hash);
    JobNameDetermines(runId, nodeName, otherRun, otherNode, hash);
    assert ShortRunId(runId, hash)[..8] == runId[..8] && ShortRunId(otherRun, hash)[..8] == otherRun[..8];
    assert ShortRunId(runId, hash)[9..] == hash(runId) && ShortRunId(otherRun, hash)[9..] == hash(otherRun);
  }

  lemma LongRunIsCut(runId: string, hash: string -> string)
    requires LongRunId(runId) && IsHash(hash(runId))
    ensures ShortRunId(runId, hash) == runId[..8] + "-" + hash(runId)
  {
    hide Sanitize, Clean, IsHash;
    CleanIsKept(runId);
    assert runId[..8][7] == runId[7];
    assert TrimEnd(runId[..8]) == runId[..8];
  }

  /** A long node name keeps its first twenty-four characters. */
  lemma LongNodeIsCut(nodeName: string, hash: string -> string)
    requires Clean(nodeName) && |nodeName| > 33 && nodeName[23] != '-'
    ensures ShortNodeName(nodeName, hash) == nodeName[..24] + "-" + hash(nodeName)
  {
    hide Sanitize, Clean;
    CleanIsKept(nodeName);
    assert nodeName[..24][23] == nodeName[23];
    assert TrimEnd(nodeName[..24]) == nodeName[..24];
  }

  /** Without that, two runs can share a job: the dash that joins the two parts may be in either. */
  lemma DashIsAmbiguous(hash: string -> string)
    ensures JobName("a-b", "c", hash) == JobName("a", "b-c", hash) == "run-a-b-c"
  {
    hide TruncateWithHash, Clean;
    SmallIsKept(hash);
    assert "run-" + "a-b" + "-" + "c" == "run-a-b-c" == "run-" + "a" + "-" + "b-c";
  }

  lemma SmallIsKept(hash: string -> string)
    ensures ShortRunId("a-b", hash) == "a-b" && ShortRunId("a", hash) == "a"
    ensures ShortNodeName("b-c", hash) == "b-c" && ShortNodeName("c", hash) == "c"
  {
    hide TruncateWithHash;
    ShortCleanIsKept("a-b", RUN_ID_PREFIX_LEN, hash);
    ShortCleanIsKept("a", RUN_ID_PREFIX_LEN, hash);
    ShortCleanIsKept("b-c", NODE_NAME_PREFIX_LEN, hash);
    ShortCleanIsKept("c", NODE_NAME_PREFIX_LEN, hash);
  }
}
