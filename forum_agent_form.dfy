/**
 * validate_forum_agent_data (admin/views.py): the error list of the forum
 * agent form and the values it writes back into the form. The float parse
 * and range test of the response threshold and the int() parse of the rate
 * limit are given as their outcomes.
 */
module ForumAgentForm {
  import opened Wrappers
  import opened Text
  import opened SeqFacts

  const MaxNameLength := 100
  const MinPromptLength := 10
  const MaxPromptLength := 10000
  const MaxRateLimit := 100
  const MaxTopics := 25
  const MaxTopicLength := 100

  /** A form value that should be a list. */
  datatype FieldList = Items(items: seq<string>) | NotAList

  /** The outcome of float(...) and the 0.0..1.0 test on the response threshold. */
  datatype ThresholdCheck = InRange | OutOfRange | NotANumber

  /** The outcome of int(...) on the rate limit. */
  datatype IntField = IntValue(value: int) | NotAnInt

  /** The submitted form; absent keys hold the defaults the code supplies. */
  datatype AgentForm = AgentForm(
    name: string,
    systemPrompt: string,
    threshold: ThresholdCheck,
    rateLimit: IntField,
    monitoredForums: FieldList,
    enableResponses: Option<string>,
    enableUserTagging: Option<string>,
    notificationTopics: FieldList,
    topicDescriptions: FieldList)

  datatype FormError =
    | NameRequired | NameTooLong
    | PromptRequired | PromptTooShort | PromptTooLong
    | ThresholdOutOfRange | ThresholdNotANumber
    | RateNegative | RateTooHigh | RateNotANumber
    | ForumsNotAList
    | NoModeEnabled
    | TopicsNotAList | TooManyTopics | NoTopics
    | TopicTooLong(topic: string) | TopicEmpty

  /** The values written back into the form. */
  datatype Cleaned = Cleaned(monitoredForums: FieldList, enableResponses: bool, enableUserTagging: bool,
                             notificationTopics: FieldList, topicDescriptions: FieldList)

  /** [x.strip() for x in items if x and x.strip()] */
  function StrippedNonBlank(items: seq<string>): (r: seq<string>)
    ensures |r| <= |items|
    ensures forall k :: 0 <= k < |r| ==> r[k] != ""
    decreases |items|
  {
    if items == [] then []
    else
      var init := StrippedNonBlank(items[..|items| - 1]);
      var last := Strip(items[|items| - 1]);
      if last != "" then init + [last] else init
  }

  /** The kept entries are already stripped. */
  lemma {:induction false} StrippedNonBlankIsStripped(items: seq<string>)
    ensures forall k :: 0 <= k < |StrippedNonBlank(items)| ==> Strip(StrippedNonBlank(items)[k]) == StrippedNonBlank(items)[k]
    decreases |items|
  {
    if items != [] {
      StrippedNonBlankIsStripped(items[..|items| - 1]);
      StripByIdempotent(items[|items| - 1], IsSpace);
    }
  }

  /** Every stripped non-blank input is kept, and only those. */
  lemma {:induction false} StrippedNonBlankMembers(items: seq<string>, x: string)
    ensures x in StrippedNonBlank(items) <==> x != "" && SomeMapsTo(items, Strip, x)
    decreases |items|
  {
    if items != [] {
      var init := items[..|items| - 1];
      var last := Strip(items[|items| - 1]);
      StrippedNonBlankMembers(init, x);
      SomeMapsToSplit(items, Strip, x);
      assert StrippedNonBlank(items) == if last != "" then StrippedNonBlank(init) + [last] else StrippedNonBlank(init);
    }
  }

  function NameErrors(name: string): seq<FormError> {
    if Strip(name) == "" then [NameRequired]
    else if |name| > MaxNameLength then [NameTooLong]
    else []
  }

  function PromptErrors(prompt: string): seq<FormError> {
    var p := Strip(prompt);
    if p == "" then [PromptRequired]
    else if |p| < MinPromptLength then [PromptTooShort]
    else if |p| > MaxPromptLength then [PromptTooLong]
    else []
  }

  function ThresholdErrors(t: ThresholdCheck): seq<FormError> {
    match t
    case InRange => []
    case OutOfRange => [ThresholdOutOfRange]
    case NotANumber => [ThresholdNotANumber]
  }

  function RateErrors(r: IntField): seq<FormError> {
    match r
    case NotAnInt => [RateNotANumber]
    case IntValue(v) => if v < 0 then [RateNegative] else if v > MaxRateLimit then [RateTooHigh] else []
  }

  /** The per-topic length test over the cleaned topics. */
  function TopicLengthErrors(topics: seq<string>): (r: seq<FormError>)
    ensures forall k :: 0 <= k < |r| ==> r[k].TopicTooLong? || r[k] == TopicEmpty
    decreases |topics|
  {
    if topics == [] then []
    else
      var init := TopicLengthErrors(topics[..|topics| - 1]);
      var t := topics[|topics| - 1];
      if |t| > MaxTopicLength then init + [TopicTooLong(t)]
      else if |t| < 1 then init + [TopicEmpty]
      else init
  }

  lemma TopicLengthErrorsStep(topics: seq<string>, t: string)
    ensures TopicLengthErrors(topics + [t]) == TopicLengthErrors(topics)
      + (if |t| > MaxTopicLength then [TopicTooLong(t)] else if |t| < 1 then [TopicEmpty] else [])
  {
    assert (topics + [t])[..|topics|] == topics;
  }

  /** No length error exactly when every topic has 1..100 characters. */
  lemma {:induction false} TopicLengthErrorsEmpty(topics: seq<string>)
    ensures TopicLengthErrors(topics) == [] <==> forall k :: 0 <= k < |topics| ==> 1 <= |topics[k]| <= MaxTopicLength
    decreases |topics|
  {
    if topics != [] {
      var init := topics[..|topics| - 1];
      TopicLengthErrorsEmpty(init);
      assert forall k :: 0 <= k < |init| ==> init[k] == topics[k];
    }
  }

  /** The topic checks made when tagging is on. */
  function TaggedTopicErrors(notificationTopics: FieldList): seq<FormError> {
    match notificationTopics
    case NotAList => [TopicsNotAList]
    case Items(items) =>
      var topics := StrippedNonBlank(items);
      (if |topics| > MaxTopics then [TooManyTopics] else if |topics| == 0 then [NoTopics] else [])
      + TopicLengthErrors(topics)
  }

  function TopicErrors(f: AgentForm): seq<FormError> {
    if f.enableUserTagging != Some("on") then [] else TaggedTopicErrors(f.notificationTopics)
  }

  /** The error list, in the order the checks append to it. */
  function FormErrors(f: AgentForm): seq<FormError> {
    BaseErrors(f) + TopicErrors(f)
  }

  /** Descriptions stripped, padded with "" and cut to exactly n entries. */
  function PadOrTrim(descs: seq<string>, n: nat): (r: seq<string>)
    ensures |r| == n
    ensures forall k :: 0 <= k < n ==> r[k] == if k < |descs| then Strip(descs[k]) else ""
  {
    seq(n, k requires 0 <= k < n => if k < |descs| then Strip(descs[k]) else "")
  }

  /** The monitored forums written back: a list stripped of blank entries, or the value as submitted. */
  function CleanedForums(forums: FieldList): FieldList {
    if forums.Items? then Items(StrippedNonBlank(forums.items)) else NotAList
  }

  /** The values the validator writes back. */
  function CleanedForm(f: AgentForm): Cleaned {
    var forums := CleanedForums(f.monitoredForums);
    var responses := f.enableResponses == Some("on");
    var tagging := f.enableUserTagging == Some("on");
    if !tagging then Cleaned(forums, responses, tagging, Items([]), Items([]))
    else
      var (topics, descs) := CleanedTopics(f.notificationTopics, f.topicDescriptions);
      Cleaned(forums, responses, tagging, topics, descs)
  }

  /** Topics and descriptions written back when tagging is on; both are left as submitted when the topics are not a list. */
  function CleanedTopics(notificationTopics: FieldList, topicDescriptions: FieldList): (FieldList, FieldList) {
    match notificationTopics
    case NotAList => (NotAList, topicDescriptions)
    case Items(items) =>
      var topics := StrippedNonBlank(items);
      (Items(topics), Items(DescriptionsFor(topicDescriptions, |topics|)))
  }

  /** One description per topic: the submitted ones padded or cut, or all empty when they are not a list. */
  function DescriptionsFor(topicDescriptions: FieldList, n: nat): (r: seq<string>)
    ensures |r| == n
  {
    if topicDescriptions.Items? then PadOrTrim(topicDescriptions.items, n) else seq(n, _ => "")
  }

  /** The checks before the topic checks, which never depend on the mode switches' topics. */
  function BaseErrors(f: AgentForm): seq<FormError> {
    NameErrors(f.name) + PromptErrors(f.systemPrompt) + ThresholdErrors(f.threshold) + RateErrors(f.rateLimit)
    + (if f.monitoredForums.NotAList? then [ForumsNotAList] else [])
    + (if f.enableResponses != Some("on") && f.enableUserTagging != Some("on") then [NoModeEnabled] else [])
  }

  /** The base checks pass exactly when every field they look at is acceptable. */
  lemma BaseErrorsEmpty(f: AgentForm)
    ensures BaseErrors(f) == [] <==>
      && Strip(f.name) != "" && |f.name| <= MaxNameLength
      && MinPromptLength <= |Strip(f.systemPrompt)| <= MaxPromptLength
      && f.threshold == InRange
      && f.rateLimit.IntValue? && 0 <= f.rateLimit.value <= MaxRateLimit
      && f.monitoredForums.Items?
      && (f.enableResponses == Some("on") || f.enableUserTagging == Some("on"))
  {
    NameErrorsEmpty(f.name);
    PromptErrorsEmpty(f.systemPrompt);
  }

  /** The name check passes exactly on a non-blank name of at most 100 characters. */
  lemma NameErrorsEmpty(name: string)
    ensures NameErrors(name) == [] <==> Strip(name) != "" && |name| <= MaxNameLength
  {
  }

  /** The prompt check passes exactly on a stripped prompt of 10..10000 characters. */
  lemma PromptErrorsEmpty(prompt: string)
    ensures PromptErrors(prompt) == [] <==> MinPromptLength <= |Strip(prompt)| <= MaxPromptLength
  {
  }

  /** With tagging on, the topic checks pass exactly when the topics are a list of 1..25 entries of at most 100 characters. */
  lemma TopicErrorsEmpty(f: AgentForm)
    ensures TopicErrors(f) == [] <==>
      (f.enableUserTagging == Some("on") ==>
         && f.notificationTopics.Items?
         && 1 <= |StrippedNonBlank(f.notificationTopics.items)| <= MaxTopics
         && forall k :: 0 <= k < |StrippedNonBlank(f.notificationTopics.items)| ==>
              |StrippedNonBlank(f.notificationTopics.items)[k]| <= MaxTopicLength)
  {
    if f.enableUserTagging == Some("on") && f.notificationTopics.Items? {
      var topics := StrippedNonBlank(f.notificationTopics.items);
      TopicLengthErrorsEmpty(topics);
    }
  }

  /**
   * The form is accepted exactly when: the name is not blank and has at most
   * 100 characters; the stripped prompt has 10..10000 characters; the
   * threshold is a number in range; the rate limit is an integer in 0..100;
   * the monitored forums are a list; a mode is on; and, with tagging on, the
   * topics are a list with 1..25 non-blank entries of at most 100 characters.
   */
  lemma FormValidIff(f: AgentForm)
    ensures FormErrors(f) == [] <==>
      && Strip(f.name) != "" && |f.name| <= MaxNameLength
      && MinPromptLength <= |Strip(f.systemPrompt)| <= MaxPromptLength
      && f.threshold == InRange
      && f.rateLimit.IntValue? && 0 <= f.rateLimit.value <= MaxRateLimit
      && f.monitoredForums.Items?
      && (f.enableResponses == Some("on") || f.enableUserTagging == Some("on"))
      && (f.enableUserTagging == Some("on") ==>
            && f.notificationTopics.Items?
            && 1 <= |StrippedNonBlank(f.notificationTopics.items)| <= MaxTopics
            && forall k :: 0 <= k < |StrippedNonBlank(f.notificationTopics.items)| ==>
                 |StrippedNonBlank(f.notificationTopics.items)[k]| <= MaxTopicLength)
  {
    assert FormErrors(f) == BaseErrors(f) + TopicErrors(f);
    BaseErrorsEmpty(f);
    TopicErrorsEmpty(f);
  }

  /**
   * What the form holds afterwards: forums and topics stripped with blanks
   * dropped, one description per topic, and with tagging off no topics and
   * no descriptions at all.
   */
  lemma CleanedFormShape(f: AgentForm)
    ensures var c := CleanedForm(f);
      && (c.enableResponses <==> f.enableResponses == Some("on"))
      && (c.enableUserTagging <==> f.enableUserTagging == Some("on"))
      && (c.monitoredForums.Items? ==> forall k :: 0 <= k < |c.monitoredForums.items| ==> c.monitoredForums.items[k] != "")
      && (!c.enableUserTagging ==> c.notificationTopics == Items([]) && c.topicDescriptions == Items([]))
      && (c.enableUserTagging && f.notificationTopics.Items? ==>
            && c.notificationTopics.Items? && c.topicDescriptions.Items?
            && |c.topicDescriptions.items| == |c.notificationTopics.items|
            && forall k :: 0 <= k < |c.notificationTopics.items| ==>
                 c.notificationTopics.items[k] != "" && Strip(c.notificationTopics.items[k]) == c.notificationTopics.items[k])
  {
    if f.enableUserTagging == Some("on") && f.notificationTopics.Items? {
      StrippedNonBlankIsStripped(f.notificationTopics.items);
    }
  }

  /** The error list of the form and the values written back, built as the code builds them. */
  method ValidateForumAgentData(f: AgentForm) returns (valid: bool, errors: seq<FormError>, cleaned: Cleaned)
    ensures errors == FormErrors(f)
    ensures valid <==> errors == []
    ensures cleaned == CleanedForm(f)
  {
    var forums;
    errors, forums := CheckBaseFields(f);
    var responses := f.enableResponses == Some("on");
    var tagging := f.enableUserTagging == Some("on");
    if !tagging {
      cleaned := Cleaned(forums, responses, tagging, Items([]), Items([]));
      return errors == [], errors, cleaned;
    }
    var topicErrors, topics, descriptions := CheckTopics(f.notificationTopics, f.topicDescriptions);
    errors := errors + topicErrors;
    cleaned := Cleaned(forums, responses, tagging, topics, descriptions);
    valid := errors == [];
  }

  /** The checks on name, prompt, threshold, rate limit, forums and modes, with the cleaned forum list. */
  method CheckBaseFields(f: AgentForm) returns (errors: seq<FormError>, forums: FieldList)
    ensures errors == BaseErrors(f)
    ensures forums == CleanedForums(f.monitoredForums)
  {
    errors := CheckText(f.name, f.systemPrompt);
    errors := CheckNumbers(errors, f.threshold, f.rateLimit);
    ghost var e4 := errors;
    forums := NotAList;
    if f.monitoredForums.NotAList? {
      errors := errors + [ForumsNotAList];
    } else {
      var kept := CleanList(f.monitoredForums.items);
      forums := Items(kept);
    }
    ghost var e5 := errors;
    assert e5 == e4 + (if f.monitoredForums.NotAList? then [ForumsNotAList] else []);
    if f.enableResponses != Some("on") && f.enableUserTagging != Some("on") {
      errors := errors + [NoModeEnabled];
    }
  }

  /** The name and prompt checks. */
  method CheckText(name: string, systemPrompt: string) returns (errors: seq<FormError>)
    ensures errors == NameErrors(name) + PromptErrors(systemPrompt)
  {
    errors := CheckName(name);
    var promptErrors := CheckPrompt(systemPrompt);
    errors := errors + promptErrors;
  }

  /** The name must not be blank and may hold at most 100 characters. */
  method CheckName(name: string) returns (errors: seq<FormError>)
    ensures errors == NameErrors(name)
  {
    errors := [];
    if Strip(name) == "" {
      errors := errors + [NameRequired];
    } else if |name| > MaxNameLength {
      errors := errors + [NameTooLong];
    }
  }

  /** The stripped prompt must hold 10..10000 characters. */
  method CheckPrompt(systemPrompt: string) returns (errors: seq<FormError>)
    ensures errors == PromptErrors(systemPrompt)
  {
    errors := [];
    var prompt := Strip(systemPrompt);
    if prompt == "" {
      errors := errors + [PromptRequired];
    } else if |prompt| < MinPromptLength {
      errors := errors + [PromptTooShort];
    } else if |prompt| > MaxPromptLength {
      errors := errors + [PromptTooLong];
    }
  }

  /** The threshold and rate-limit checks, appended to the errors so far. */
  method CheckNumbers(before: seq<FormError>, threshold: ThresholdCheck, rateLimit: IntField) returns (errors: seq<FormError>)
    ensures errors == before + ThresholdErrors(threshold) + RateErrors(rateLimit)
  {
    errors := before;
    match threshold {
      case InRange =>
      case OutOfRange => errors := errors + [ThresholdOutOfRange];
      case NotANumber => errors := errors + [ThresholdNotANumber];
    }
    ghost var e3 := errors;
    match rateLimit {
      case NotAnInt => errors := errors + [RateNotANumber];
      case IntValue(v) =>
        if v < 0 {
          errors := errors + [RateNegative];
        } else if v > MaxRateLimit {
          errors := errors + [RateTooHigh];
        }
    }
    assert errors == e3 + RateErrors(rateLimit);
  }

  /** The topic checks with tagging on: errors, the cleaned topics and the matching descriptions. */
  method CheckTopics(notificationTopics: FieldList, topicDescriptions: FieldList)
    returns (errors: seq<FormError>, topicsOut: FieldList, descriptionsOut: FieldList)
    ensures errors == TaggedTopicErrors(notificationTopics)
    ensures (topicsOut, descriptionsOut) == CleanedTopics(notificationTopics, topicDescriptions)
  {
    if notificationTopics.NotAList? {
      return [TopicsNotAList], NotAList, topicDescriptions;
    }
    var topics := CleanList(notificationTopics.items);
    var countErrors := if |topics| > MaxTopics then [TooManyTopics] else if |topics| == 0 then [NoTopics] else [];
    var lengthErrors := CheckTopicLengths(topics);
    errors := countErrors + lengthErrors;
    var descriptions := MatchDescriptions(topicDescriptions, |topics|);
    topicsOut, descriptionsOut := Items(topics), Items(descriptions);
  }

  /** The loop over the cleaned topics that reports each one of a bad length. */
  method CheckTopicLengths(topics: seq<string>) returns (errors: seq<FormError>)
    ensures errors == TopicLengthErrors(topics)
  {
    errors := [];
    for i := 0 to |topics|
      invariant errors == TopicLengthErrors(topics[..i])
    {
      var topic := topics[i];
      TopicLengthErrorsStep(topics[..i], topic);
      assert topics[..i + 1] == topics[..i] + [topic];
      if |topic| > MaxTopicLength {
        errors := errors + [TopicTooLong(topic)];
      } else if |topic| < 1 {
        errors := errors + [TopicEmpty];
      }
    }
    assert topics[..|topics|] == topics;
  }

  /** The list comprehension that strips entries and drops blank ones. */
  method CleanList(items: seq<string>) returns (kept: seq<string>)
    ensures kept == StrippedNonBlank(items)
  {
    kept := [];
    for i := 0 to |items|
      invariant kept == StrippedNonBlank(items[..i])
    {
      assert items[..i + 1][..i] == items[..i];
      var item := Strip(items[i]);
      if item != "" {
        kept := kept + [item];
      }
    }
    assert items[..|items|] == items;
  }

  /** The descriptions written back: the submitted list fitted to the topics, or empty strings when it is not a list. */
  method MatchDescriptions(topicDescriptions: FieldList, n: nat) returns (descriptions: seq<string>)
    ensures descriptions == DescriptionsFor(topicDescriptions, n)
  {
    if topicDescriptions.Items? {
      descriptions := PaddedDescriptions(topicDescriptions.items, n);
    } else {
      descriptions := seq(n, _ => "");
    }
  }

  /** The description handling: strip each, append "" while short, then cut to the topic count. */
  method PaddedDescriptions(descs: seq<string>, n: nat) returns (descriptions: seq<string>)
    ensures descriptions == PadOrTrim(descs, n)
  {
    descriptions := seq(|descs|, k requires 0 <= k < |descs| => Strip(descs[k]));
    while |descriptions| < n
      invariant |descriptions| >= |descs|
      invariant forall k :: 0 <= k < |descriptions| ==> descriptions[k] == if k < |descs| then Strip(descs[k]) else ""
      decreases n - |descriptions|
    {
      descriptions := descriptions + [""];
    }
    descriptions := descriptions[..n];
  }
}
