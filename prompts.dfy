/**
 * Filling a character prompt template. The template text, the character's
 * configuration and the serialised dialogue rules come from JSON files the
 * module imports; here they are parameters. A configuration is its
 * `Object.keys` order of key/value pairs.
 */
module Prompts {
  import opened Wrappers
  import opened Text

  type Config = seq<(string, string)>

  const DefaultHumanName := "User"
  const HumanNamePlaceholder := "{human_name}"
  const StyleRulesPlaceholder := "{style_rules}"

  /** The placeholder for a configuration key. */
  function Placeholder(key: string): (r: string)
    ensures |r| == |key| + 2 && r[0] == '{'
  {
    "{" + key + "}"
  }

  /** The template after the `forEach` over the configuration's keys, in key order. */
  function Substituted(prompt: string, config: Config): string
    decreases |config|
  {
    if config == [] then prompt
    else Substituted(ReplaceFirst(prompt, Placeholder(config[0].0), config[0].1), config[1..])
  }

  /** What `generatePrompt` returns. */
  function PromptOf(template: string, config: Config, humanName: string, styleRules: string): string {
    var afterKeys := Substituted(template, config);
    var afterName := ReplaceFirst(afterKeys, HumanNamePlaceholder, humanName);
    ReplaceFirst(afterName, StyleRulesPlaceholder, styleRules)
  }

  /**
   * `generatePrompt`: replaces the first `{key}` of every configuration key in
   * key order, then the first `{human_name}` (by default with `User`), then the
   * first `{style_rules}`.
   */
  method GeneratePrompt(template: string, config: Config, humanName: Option<string>, styleRules: string)
    returns (prompt: string)
    ensures prompt == PromptOf(template, config, humanName.GetOr(DefaultHumanName), styleRules)
  {
    prompt := template;
    for i := 0 to |config|
      invariant Substituted(template, config) == Substituted(prompt, config[i..])
    {
      assert config[i..][1..] == config[i + 1..];
      var key := config[i].0;
      prompt := ReplaceFirst(prompt, "{" + key + "}", config[i].1);
    }
    assert config[|config|..] == [];
    prompt := ReplaceFirst(prompt, HumanNamePlaceholder, humanName.GetOr(DefaultHumanName));
    prompt := ReplaceFirst(prompt, StyleRulesPlaceholder, styleRules);
  }

  /** No configuration key's `{key}`, no `{human_name}` and no `{style_rules}` occurs anywhere in `template`. */
  predicate HasNoPlaceholder(template: string, config: Config) {
    && (forall k, j :: 0 <= k < |config| && 0 <= j <= |template| ==> !OccursAt(template, Placeholder(config[k].0), j))
    && (forall j :: 0 <= j <= |template| ==> !OccursAt(template, HumanNamePlaceholder, j))
    && (forall j :: 0 <= j <= |template| ==> !OccursAt(template, StyleRulesPlaceholder, j))
  }

  lemma {:induction false} NoKeySubstituted(s: string, config: Config)
    requires forall k, j :: 0 <= k < |config| && 0 <= j <= |s| ==> !OccursAt(s, Placeholder(config[k].0), j)
    ensures Substituted(s, config) == s
    decreases |config|
  {
    if config != [] {
      assert IndexOf(s, Placeholder(config[0].0)).None?;
      assert forall k :: 0 <= k < |config[1..]| ==> config[1..][k] == config[k + 1];
      NoKeySubstituted(s, config[1..]);
    }
  }

  /**
   * A template in which no placeholder occurs comes back unchanged, whatever
   * other braces it holds.
   */
  lemma NoPlaceholderUnchanged(template: string, config: Config, humanName: string, styleRules: string)
    requires HasNoPlaceholder(template, config)
    ensures PromptOf(template, config, humanName, styleRules) == template
  {
    NoKeySubstituted(template, config);
    assert IndexOf(template, HumanNamePlaceholder).None?;
    assert IndexOf(template, StyleRulesPlaceholder).None?;
  }

  /** For instance, JSON braces around no placeholder: `a {x` is left alone. */
  lemma BracesWithoutPlaceholder(template: string, humanName: string, styleRules: string)
    requires template == "a {x"
    ensures PromptOf(template, [("x", "y")], humanName, styleRules) == template
  {
    var config := [("x", "y")];
    assert Placeholder(config[0].0) == "{x}";
    forall k, j | 0 <= k < |config| && 0 <= j <= |template|
      ensures !OccursAt(template, Placeholder(config[k].0), j)
    {
    }
    forall j | 0 <= j <= |template| ensures !OccursAt(template, HumanNamePlaceholder, j) {
    }
    forall j | 0 <= j <= |template| ensures !OccursAt(template, StyleRulesPlaceholder, j) {
    }
    NoPlaceholderUnchanged(template, config, humanName, styleRules);
  }

  /**
   * Only the first occurrence is replaced: a later, non-overlapping
   * occurrence of the pattern is still there, moved by the length change.
   */
  lemma OnlyFirstReplaced(s: string, pat: string, rep: string, j: nat)
    requires IndexOf(s, pat).Some? && IndexOf(s, pat).value + |pat| <= j
    requires OccursAt(s, pat, j)
    ensures OccursAt(ReplaceFirst(s, pat, rep), pat, j - |pat| + |rep|)
  {
    var i := IndexOf(s, pat).value;
    var r := ReplaceFirst(s, pat, rep);
    var k := j - |pat| + |rep|;
    assert r == s[..i] + rep + s[i + |pat|..];
    assert r[k..k + |pat|] == s[j..j + |pat|];
  }

  /** A placeholder that occurs is replaced at its first occurrence. */
  lemma FirstReplaced(s: string, pat: string, rep: string)
    requires IndexOf(s, pat).Some?
    ensures var i := IndexOf(s, pat).value;
      && ReplaceFirst(s, pat, rep)[..i] == s[..i]
      && OccursAt(ReplaceFirst(s, pat, rep), rep, i)
      && ReplaceFirst(s, pat, rep)[i + |rep|..] == s[i + |pat|..]
  {
    var i := IndexOf(s, pat).value;
    var r := ReplaceFirst(s, pat, rep);
    assert r == s[..i] + rep + s[i + |pat|..];
    assert r[i..i + |rep|] == rep;
  }

  /** The opening sentence of a group chat prompt. */
  function GroupIntro(humanName: string, otherAIs: seq<string>): string {
    "In a group chat with " + humanName + " and AIs: " + Join(otherAIs, ", ") + ". "
  }

  /**
   * `generateGroupPrompt`: the group intro naming the human and the other
   * characters, followed by the base prompt filled for the default character
   * with the human's name.
   */
  method GenerateGroupPrompt(humanName: string, otherAIs: seq<string>, basePrompt: string, config: Config, styleRules: string)
    returns (r: string)
    ensures r == GroupIntro(humanName, otherAIs) + PromptOf(basePrompt, config, humanName, styleRules)
    ensures r[..21 + |humanName|] == "In a group chat with " + humanName
  {
    var prompt := GeneratePrompt(basePrompt, config, Some(humanName), styleRules);
    r := GroupIntro(humanName, otherAIs) + prompt;
  }
}
