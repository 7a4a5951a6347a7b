/**
 * `translateText`: turns the input text and a style tag into a chat-completion
 * request and folds whatever happens to that request into one displayable
 * string. The network round trip is a parameter, `send`, which maps the
 * request to its outcome; everything else is a function of its arguments.
 */
module Api {
  import opened Wrappers
  import opened Text

  // ---------------------------------------------------------------------------
  // Fixed texts
  // ---------------------------------------------------------------------------

  const MissingKeyMessage := "⚠️ API 키가 설정되지 않아 변환할 수 없습니다. 환경 설정을 확인해주세요."
  const InvalidKeyMessage := "⚠️ API 키가 유효하지 않습니다. API 키를 올바르게 설정했는지 확인해주세요."
  const RateLimitMessage := "⚠️ API 요청 한도를 초과했습니다. 잠시 후 다시 시도해주세요."
  const UnreachableMessage := "⚠️ 서버에 연결할 수 없습니다. 인터넷 연결을 확인하고 다시 시도해주세요."
  /** Followed by the status code. */
  const StatusMessagePrefix := "번역 중 오류가 발생했습니다. 오류 코드: "
  /** Followed by the error's message, or by `UnknownErrorDetail` when it has none. */
  const OtherMessagePrefix := "⚠️ 오류 발생: "
  const UnknownErrorDetail := "알 수 없는 오류"

  /** The instruction for each of the four style tags. */
  const StylePrompts: map<string, string> := map[
    "friend" := "20~30대 친구들끼리 쓰는 최신 유행어와 밈을 자연스럽게 활용해서 변환해줘. 인스타나 카톡에서 쓰는 말투처럼 가볍고 친근하게 해줘. 필요하면 ㅋㅋㅋ, ㅠㅠ 같은 표현이나 이모티콘도 넣어.",
    "boss" := "회사 상사에게 보고하는 것처럼 정중하고 예의 바르게 변환해줘. 현대 비즈니스 환경에서 쓰는 자연스러운 존댓말을 사용하되, 업무 용어나 비즈니스 표현을 적절히 섞어서 전문적으로 들리게 해줘. 원래 내용의 의미를 보강해서 더 논리적이고 설득력 있게 표현해도 좋아.",
    "date" := "처음 만난 상대와 대화하는 분위기로, 관심을 표현하면서도 부담스럽지 않게 변환해줘. 약간의 센스와 유머를 보여주되 너무 과하지 않게, 상대가 호감을 느낄 만한 말투로 표현해줘. 원래 의미를 바탕으로 대화를 이어갈 수 있는 방향으로 살짝 변형해도 좋아.",
    "ai" := "AI에게 명령하는 최적의 프롬프트 형식으로 변환해줘. 명확한 지시어를 사용하고 구체적인 요구사항을 포함해. 모호함을 제거하고 AI가 정확히 이해할 수 있도록 구조화된 형태로 만들어. 원래 의도를 파악해서 더 효율적인 명령어로 재구성해도 좋아."
  ]

  /** The parts of the user prompt around the quoted input and the instruction. */
  const PromptOpening := "\n원본 문장: "
  const PromptBridge := "\n\n위 문장을 다음 지침에 맞게 변환해주세요:\n"
  const PromptClosing := "\n\n중요: 반드시 자연스러운 한국어로 변환하되, 원래 의미를 유지하면서 해당 스타일에 맞게 톤과 표현을 적절히 조절해주세요. 내용은 간결하면서도 의미 전달이 명확해야 합니다.\n  "

  // ---------------------------------------------------------------------------
  // Request, outcome and diagnosis
  // ---------------------------------------------------------------------------

  /** What the request depends on: the credential and the user prompt. */
  datatype Request = Request(apiKey: string, prompt: string)

  /** How the HTTP call ends. */
  datatype Outcome =
    | Success(content: string)           // the first choice's message content
    | HttpStatus(status: int)            // a response arrived with an error status
    | NoResponse                         // the request went out, nothing came back
    | Failed(message: Option<string>)    // any other thrown error, with its message if any

  /** The failure classes, each shown to the user as its own message. */
  datatype Diagnostic =
    | MissingCredential
    | Unauthorized
    | RateLimited
    | RemoteError(code: int)
    | Unreachable
    | Unknown(detail: string)

  /**
   * `!apiKey` is false: `process.env.REACT_APP_OPENAI_API_KEY` is defined and,
   * the empty string being the only falsy string, not empty.
   */
  predicate HasKey(apiKey: Option<string>): (b: bool)
    ensures b <==> apiKey != None && apiKey != Some("")
  {
    apiKey.Some? && apiKey.value != ""
  }

  /**
   * The properties every object literal inherits from `Object.prototype`
   * (including the legacy accessors of ECMAScript's Annex B); looking one of
   * them up in `stylePrompts` finds the inherited value instead of `undefined`.
   */
  const ObjectPrototypeMembers: set<string> := {
    "constructor", "hasOwnProperty", "isPrototypeOf", "propertyIsEnumerable",
    "toLocaleString", "toString", "valueOf", "__proto__",
    "__defineGetter__", "__defineSetter__", "__lookupGetter__", "__lookupSetter__"
  }

  /**
   * How an inherited member renders inside a template literal: `__proto__` is
   * `Object.prototype` itself, `constructor` is the function `Object`, and the
   * rest are built-in methods, printed as native functions are in V8.
   */
  function InheritedRendering(name: string): string {
    if name == "__proto__" then "[object Object]"
    else if name == "constructor" then "function Object() { [native code] }"
    else "function " + name + "() { [native code] }"
  }

  /**
   * `${stylePrompts[style]}`: a table tag gives its instruction, an inherited
   * property name gives that property's rendering, anything else `undefined`.
   */
  function Instruction(style: string): (r: string)
    ensures style in StylePrompts ==> r == StylePrompts[style]
    ensures style in ObjectPrototypeMembers ==> r == InheritedRendering(style)
    ensures style !in StylePrompts && style !in ObjectPrototypeMembers ==> r == "undefined"
  {
    if style in StylePrompts then StylePrompts[style]
    else if style in ObjectPrototypeMembers then InheritedRendering(style)
    else "undefined"
  }

  /** The user prompt: the input in double quotes, then the style's instruction. */
  function Prompt(inputText: string, style: string): (r: string)
    ensures PromptOpening <= r
    ensures |r| == |PromptOpening| + |inputText| + 2 + |PromptBridge| + |Instruction(style)| + |PromptClosing|
    ensures QuotedInput(r, style) == inputText
  {
    Layout(PromptOpening, inputText, PromptBridge, Instruction(style), PromptClosing);
    PromptOpening + "\"" + inputText + "\"" + PromptBridge + Instruction(style) + PromptClosing
  }

  /**
   * The message shown for each failure class. Only the generic status message
   * lacks the leading warning sign.
   */
  function Describe(d: Diagnostic): (r: string)
    ensures r != []
    ensures r[0] == '⚠' <==> !d.RemoteError?
    ensures d.RemoteError? ==> StatusMessagePrefix <= r
    ensures d.Unknown? ==> OtherMessagePrefix <= r && r[|OtherMessagePrefix|..] == d.detail
  {
    match d
    case MissingCredential => assert MissingKeyMessage[0] == '⚠'; MissingKeyMessage
    case Unauthorized => assert InvalidKeyMessage[0] == '⚠'; InvalidKeyMessage
    case RateLimited => assert RateLimitMessage[0] == '⚠'; RateLimitMessage
    case RemoteError(code) =>
      var r := StatusMessagePrefix + IntToString(code);
      assert r[0] == StatusMessagePrefix[0] == '번';
      r
    case Unreachable => assert UnreachableMessage[0] == '⚠'; UnreachableMessage
    case Unknown(detail) =>
      var r := OtherMessagePrefix + detail;
      assert r[0] == OtherMessagePrefix[0] == '⚠' && r[|OtherMessagePrefix|..] == detail;
      r
  }

  /** Which failure class a displayed message reports, if any. */
  function Recognize(msg: string): Option<Diagnostic> {
    if msg == MissingKeyMessage then Some(MissingCredential)
    else if msg == InvalidKeyMessage then Some(Unauthorized)
    else if msg == RateLimitMessage then Some(RateLimited)
    else if msg == UnreachableMessage then Some(Unreachable)
    else if StatusMessagePrefix <= msg && ParseInt(msg[|StatusMessagePrefix|..]).Some? then
      Some(RemoteError(ParseInt(msg[|StatusMessagePrefix|..]).value))
    else if OtherMessagePrefix <= msg then Some(Unknown(msg[|OtherMessagePrefix|..]))
    else None
  }

  /** The branch on `error.response.status`. */
  function StatusDiagnostic(status: int): (d: Diagnostic)
    ensures d == Unauthorized <==> status == 401
    ensures d == RateLimited <==> status == 429
    ensures d.RemoteError? <==> status != 401 && status != 429
    ensures d.RemoteError? ==> d.code == status
    ensures !d.MissingCredential? && !d.Unreachable? && !d.Unknown?
  {
    if status == 401 then Unauthorized
    else if status == 429 then RateLimited
    else RemoteError(status)
  }

  /** `error.message || '알 수 없는 오류'`: an absent or empty message gives the default. */
  function ErrorDetail(message: Option<string>): (r: string)
    ensures r != []
    ensures message.Some? && message.value != [] ==> r == message.value
    ensures !(message.Some? && message.value != []) ==> r == UnknownErrorDetail
  {
    if message.Some? && message.value != "" then message.value else UnknownErrorDetail
  }

  /** The `catch` block: which class a failed request falls into. */
  function FailureDiagnostic(o: Outcome): (d: Diagnostic)
    requires !o.Success?
    ensures o.HttpStatus? ==> d == StatusDiagnostic(o.status)
    ensures o.NoResponse? <==> d == Unreachable
    ensures o.Failed? <==> d.Unknown?
    ensures !d.MissingCredential?
  {
    match o
    case HttpStatus(status) => StatusDiagnostic(status)
    case NoResponse => Unreachable
    case Failed(message) => Unknown(ErrorDetail(message))
  }

  /** The string `translateText` resolves to once the request has been made. */
  function Reply(o: Outcome): (r: string)
    ensures o.Success? ==> Tight(r)
  {
    if o.Success? then Trim(o.content) else Describe(FailureDiagnostic(o))
  }

  /** `translateText(inputText, style)` with the credential and the network made explicit. */
  function TranslateText(apiKey: Option<string>, inputText: string, style: string,
                         send: Request -> Outcome): (r: string)
    ensures !HasKey(apiKey) ==> r == MissingKeyMessage
    ensures HasKey(apiKey) ==>
              var o := send(Request(apiKey.value, Prompt(inputText, style)));
              && (o.Success? ==> Tight(r))
              && (!o.Success? ==> r == Describe(FailureDiagnostic(o)))
  {
    if !HasKey(apiKey) then Describe(MissingCredential)
    else Reply(send(Request(apiKey.value, Prompt(inputText, style))))
  }

  // ---------------------------------------------------------------------------
  // Properties
  // ---------------------------------------------------------------------------

  /** Every failure message can be read back as the class it reports. */
  lemma RecognizeDescribe(d: Diagnostic)
    ensures Recognize(Describe(d)) == Some(d)
  {
    match d
    case RemoteError(code) => RecognizeStatusMessage(code);
    case Unknown(detail) => RecognizeOtherMessage(detail);
    case _ => RecognizeFixedMessages();
  }

  lemma RecognizeFixedMessages()
    ensures Recognize(MissingKeyMessage) == Some(MissingCredential)
    ensures Recognize(InvalidKeyMessage) == Some(Unauthorized)
    ensures Recognize(RateLimitMessage) == Some(RateLimited)
    ensures Recognize(UnreachableMessage) == Some(Unreachable)
  {
    assert |MissingKeyMessage| == 44 && |InvalidKeyMessage| == 46;
    assert |RateLimitMessage| == 37 && |UnreachableMessage| == 42;
  }

  lemma RecognizeStatusMessage(code: int)
    ensures Recognize(StatusMessagePrefix + IntToString(code)) == Some(RemoteError(code))
  {
    var m := StatusMessagePrefix + IntToString(code);
    ParseIntToString(code);
    assert StatusMessagePrefix <= m && m[|StatusMessagePrefix|..] == IntToString(code);
    assert m[0] == '번';
    assert m != MissingKeyMessage by { assert MissingKeyMessage[0] == '⚠'; }
    assert m != InvalidKeyMessage by { assert InvalidKeyMessage[0] == '⚠'; }
    assert m != RateLimitMessage by { assert RateLimitMessage[0] == '⚠'; }
    assert m != UnreachableMessage by { assert UnreachableMessage[0] == '⚠'; }
  }

  lemma RecognizeOtherMessage(detail: string)
    ensures Recognize(OtherMessagePrefix + detail) == Some(Unknown(detail))
  {
    var m := OtherMessagePrefix + detail;
    assert m[0] == OtherMessagePrefix[0] == '⚠' && StatusMessagePrefix[0] == '번';
    assert m[3] == OtherMessagePrefix[3] == '오';
    assert MissingKeyMessage[3] == InvalidKeyMessage[3] == RateLimitMessage[3] == 'A';
    assert UnreachableMessage[3] == '서';
    assert m[|OtherMessagePrefix|..] == detail;
  }

  /** A message recognised as a class is exactly that class's message. */
  lemma DescribeRecognize(msg: string, d: Diagnostic)
    requires Recognize(msg) == Some(d)
    ensures Describe(d) == msg
  {
    match d
    case RemoteError(code) =>
      var tail := msg[|StatusMessagePrefix|..];
      assert StatusMessagePrefix <= msg && ParseInt(tail) == Some(code);
      assert msg == StatusMessagePrefix + tail;
    case Unknown(detail) =>
      var tail := msg[|OtherMessagePrefix|..];
      assert OtherMessagePrefix <= msg && tail == detail;
      assert msg == OtherMessagePrefix + tail;
    case _ =>
  }

  /** Distinct failure classes are shown as distinct messages. */
  lemma DescribeInjective(d1: Diagnostic, d2: Diagnostic)
    requires Describe(d1) == Describe(d2)
    ensures d1 == d2
  {
    RecognizeDescribe(d1);
    RecognizeDescribe(d2);
  }

  /** Without a credential the reply is the missing-key message, whatever the network would do. */
  lemma MissingKeyShortCircuit(apiKey: Option<string>, inputText: string, style: string,
                               send: Request -> Outcome, other: Request -> Outcome)
    requires !HasKey(apiKey)
    ensures TranslateText(apiKey, inputText, style, send) == MissingKeyMessage
    ensures TranslateText(apiKey, inputText, style, send) == TranslateText(apiKey, inputText, style, other)
    ensures Recognize(TranslateText(apiKey, inputText, style, send)) == Some(MissingCredential)
  {
    RecognizeDescribe(MissingCredential);
  }

  /**
   * With a credential, the request carries the prompt, and every failure of it
   * is shown as the message of the class `FailureDiagnostic` assigns.
   */
  lemma FailureReply(apiKey: Option<string>, inputText: string, style: string,
                     send: Request -> Outcome)
    requires HasKey(apiKey)
    requires !send(Request(apiKey.value, Prompt(inputText, style))).Success?
    ensures Recognize(TranslateText(apiKey, inputText, style, send))
            == Some(FailureDiagnostic(send(Request(apiKey.value, Prompt(inputText, style)))))
  {
    RecognizeDescribe(FailureDiagnostic(send(Request(apiKey.value, Prompt(inputText, style)))));
  }

  /** The three answers to an error status: 401, 429, or any other code spelled out. */
  lemma StatusReply(apiKey: Option<string>, inputText: string, style: string,
                    send: Request -> Outcome, status: int)
    requires HasKey(apiKey)
    requires send(Request(apiKey.value, Prompt(inputText, style))) == HttpStatus(status)
    ensures status == 401 ==> TranslateText(apiKey, inputText, style, send) == InvalidKeyMessage
    ensures status == 429 ==> TranslateText(apiKey, inputText, style, send) == RateLimitMessage
    ensures status != 401 && status != 429 ==>
              var r := TranslateText(apiKey, inputText, style, send);
              StatusMessagePrefix <= r && ParseInt(r[|StatusMessagePrefix|..]) == Some(status)
  {
    if status != 401 && status != 429 {
      var r := TranslateText(apiKey, inputText, style, send);
      assert r[|StatusMessagePrefix|..] == IntToString(status);
      ParseIntToString(status);
    }
  }

  /** No response, or any other error: the unreachable message, or the error's own message. */
  lemma OtherFailureReply(apiKey: Option<string>, inputText: string, style: string,
                          send: Request -> Outcome)
    requires HasKey(apiKey)
    ensures var o := send(Request(apiKey.value, Prompt(inputText, style)));
            var r := TranslateText(apiKey, inputText, style, send);
            (o.NoResponse? ==> r == UnreachableMessage) &&
            (o.Failed? ==>
               && OtherMessagePrefix <= r
               && r[|OtherMessagePrefix|..] == (if o.message.Some? && o.message.value != ""
                                                then o.message.value else UnknownErrorDetail))
  {
  }

  /**
   * A successful reply is the content with white space cut from both ends only,
   * and it neither starts nor ends with white space.
   */
  lemma SuccessReply(apiKey: Option<string>, inputText: string, style: string,
                     send: Request -> Outcome)
    requires HasKey(apiKey)
    requires send(Request(apiKey.value, Prompt(inputText, style))).Success?
    ensures var c := send(Request(apiKey.value, Prompt(inputText, style))).content;
            var r := TranslateText(apiKey, inputText, style, send);
            Tight(r) && Trimming(c, |c| - |TrimStart(c)|, r) && r == Trim(r)
  {
    var c := send(Request(apiKey.value, Prompt(inputText, style))).content;
    TrimIdempotent(c);
  }

  /**
   * `translateText` always resolves to a string that is either a cleaned-up
   * reply from the model or one of the recognisable failure messages.
   */
  lemma TranslateTextTotal(apiKey: Option<string>, inputText: string, style: string,
                           send: Request -> Outcome)
    ensures var r := TranslateText(apiKey, inputText, style, send);
            || (HasKey(apiKey) && send(Request(apiKey.value, Prompt(inputText, style))).Success? && Tight(r))
            || Recognize(r).Some?
  {
    if !HasKey(apiKey) {
      RecognizeDescribe(MissingCredential);
    } else if !send(Request(apiKey.value, Prompt(inputText, style))).Success? {
      FailureReply(apiKey, inputText, style, send);
    }
  }

  /** The input text that a prompt built for `style` quotes. */
  function QuotedInput(prompt: string, style: string): string
  {
    var start := |PromptOpening| + 1;
    var tail := 1 + |PromptBridge| + |Instruction(style)| + |PromptClosing|;
    if start + tail <= |prompt| then prompt[start..|prompt| - tail] else ""
  }

  /**
   * The prompt holds the input in double quotes at a fixed place, followed by
   * the bridge sentence and then the style's instruction; the input can be read back.
   */
  lemma PromptQuotesInput(inputText: string, style: string)
    ensures var p := Prompt(inputText, style);
            var q := |PromptOpening|;
            var i := q + |inputText| + 2 + |PromptBridge|;
            && p[q..q + |inputText| + 2] == "\"" + inputText + "\""
            && p[i..i + |Instruction(style)|] == Instruction(style)
            && QuotedInput(p, style) == inputText
  {
    Layout(PromptOpening, inputText, PromptBridge, Instruction(style), PromptClosing);
  }

  /** Where each part of `a + "t" + b + c + d` sits, for any parts. */
  lemma Layout(a: string, t: string, b: string, c: string, d: string)
    ensures var p := a + "\"" + t + "\"" + b + c + d;
            var i := |a| + |t| + 2 + |b|;
            && p[|a|..|a| + |t| + 2] == "\"" + t + "\""
            && p[i..i + |c|] == c
            && p[|a| + 1..|p| - (1 + |b| + |c| + |d|)] == t
  {
  }

  /** The four instructions differ, so the prompt also tells which style was asked for. */
  lemma PromptDistinguishesStyles(inputText: string, s1: string, s2: string)
    requires s1 in StylePrompts && s2 in StylePrompts && s1 != s2
    ensures Prompt(inputText, s1) != Prompt(inputText, s2)
  {
    assert |StylePrompts["friend"]| == 105;
    assert |StylePrompts["boss"]| == 145;
    assert |StylePrompts["date"]| == 140;
    assert |StylePrompts["ai"]| == 135;
  }
}
