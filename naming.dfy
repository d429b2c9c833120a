/**
 * The guards of the workflow name and batch-size setters: a blank name falls
 * back to the default name, and only a positive batch size is taken.
 */
module Naming {
  import opened Types

  /**
   * The characters JavaScript's String.prototype.trim removes: white space
   * (tab, vertical tab, form feed, the Unicode space separators, the byte
   * order mark) and line terminators.
   */
  predicate IsWhiteSpace(c: char) {
    || c == '\t' || c == '\n' || c == '\U{000B}' || c == '\U{000C}' || c == '\r'
    || c == ' ' || c == '\U{00A0}' || c == '\U{1680}'
    || ('\U{2000}' <= c <= '\U{200A}')
    || c == '\U{2028}' || c == '\U{2029}' || c == '\U{202F}' || c == '\U{205F}'
    || c == '\U{3000}' || c == '\U{FEFF}'
  }

  ghost predicate AllWhiteSpace(s: string) {
    forall i :: 0 <= i < |s| ==> IsWhiteSpace(s[i])
  }

  function TrimStart(s: string): (r: string)
    ensures |r| <= |s|
    ensures r == s[|s| - |r|..]
  {
    if |s| > 0 && IsWhiteSpace(s[0]) then TrimStart(s[1..]) else s
  }

  function TrimEnd(s: string): (r: string)
    ensures |r| <= |s|
    ensures r == s[..|r|]
  {
    if |s| > 0 && IsWhiteSpace(s[|s| - 1]) then TrimEnd(s[..|s| - 1]) else s
  }

  /** String.prototype.trim: white space removed from both ends. */
  function Trim(s: string): string {
    TrimEnd(TrimStart(s))
  }

  lemma {:induction false} TrimStartEmpty(s: string)
    ensures TrimStart(s) == [] <==> AllWhiteSpace(s)
    ensures TrimStart(s) != [] ==> !IsWhiteSpace(TrimStart(s)[0])
  {
    if |s| > 0 && IsWhiteSpace(s[0]) {
      TrimStartEmpty(s[1..]);
      if AllWhiteSpace(s[1..]) {
        forall i | 0 <= i < |s| ensures IsWhiteSpace(s[i]) {
          if i > 0 { assert s[i] == s[1..][i - 1]; }
        }
      } else {
        var i :| 0 <= i < |s[1..]| && !IsWhiteSpace(s[1..][i]);
        assert !IsWhiteSpace(s[i + 1]);
      }
    }
  }

  lemma {:induction false} TrimEndKeepsNonWhiteHead(s: string)
    requires |s| > 0 && !IsWhiteSpace(s[0])
    ensures TrimEnd(s) != []
  {
    if IsWhiteSpace(s[|s| - 1]) {
      TrimEndKeepsNonWhiteHead(s[..|s| - 1]);
    }
  }

  /** A name trims to nothing exactly when every character of it is white space. */
  lemma TrimEmptyIffBlank(s: string)
    ensures |Trim(s)| == 0 <==> AllWhiteSpace(s)
  {
    TrimStartEmpty(s);
    var t := TrimStart(s);
    if t != [] {
      TrimEndKeepsNonWhiteHead(t);
    }
  }

  /** The name setWorkflowName stores for a requested name. */
  function EffectiveName(name: string): (r: string)
    ensures AllWhiteSpace(name) ==> r == DefaultWorkflowName
    ensures !AllWhiteSpace(name) ==> r == name
  {
    TrimEmptyIffBlank(name);
    if |Trim(name)| > 0 then name else DefaultWorkflowName
  }

  /** The settings setWorkflowDataTransferBatchSize leaves behind. */
  function ResizedSettings(settings: WorkflowSettings, size: int): (r: WorkflowSettings)
    ensures size > 0 ==> r.dataTransferBatchSize == size
    ensures size <= 0 ==> r == settings
    ensures r.dataTransferBatchSize > 0 || r == settings
  {
    if size > 0 then settings.(dataTransferBatchSize := size) else settings
  }

  /** String.prototype.includes: `sub` occurs somewhere in `s`. */
  predicate ContainsSubstring(s: string, sub: string) {
    sub <= s || (s != [] && ContainsSubstring(s[1..], sub))
  }
}
