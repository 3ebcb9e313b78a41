/**
 * src/components/DiscordWebhookInput.tsx: the webhook form. Both buttons
 * check the url the same way before anything is sent; the two requests are
 * split into the part before the fetch and the part after its outcome.
 */
module DiscordWebhookInput {
  import opened Wrappers
  import opened Text

  function StartsWith(s: string, prefix: string): bool {
    |prefix| <= |s| && s[..|prefix|] == prefix
  }

  /** `/^https?:\/\//.test(url)`: "http", an optional "s", then "://", at the very start. */
  predicate SchemeMatches(url: string) {
    |url| >= 4 && url[..4] == "http" &&
    var rest := url[4..];
    (|rest| >= 3 && rest[..3] == "://") || (|rest| >= 4 && rest[0] == 's' && rest[1..4] == "://")
  }

  /** The pattern accepts exactly the urls that start with `http://` or `https://`, case-sensitively. */
  lemma SchemeMatchesPrefixes(url: string)
    ensures SchemeMatches(url) <==> StartsWith(url, "http://") || StartsWith(url, "https://")
  {
    if |url| >= 7 && url[..7] == "http://" {
      assert url[..4] == url[..7][..4];
      assert url[4..][..3] == url[..7][4..];
    }
    if |url| >= 8 && url[..8] == "https://" {
      assert url[..4] == url[..8][..4];
      assert url[4..][1..4] == url[..8][5..];
    }
    if SchemeMatches(url) {
      var rest := url[4..];
      if |rest| >= 3 && rest[..3] == "://" {
        assert url[..7] == url[..4] + rest[..3];
      } else {
        assert url[..8] == url[..4] + [rest[0]] + rest[1..4];
      }
    }
  }

  datatype Verdict = Accepted | MissingUrl | BadScheme

  /** The two checks, in order: an empty url is reported before its scheme is looked at. */
  function Validate(url: string): (r: Verdict)
    ensures r == MissingUrl <==> url == ""
    ensures r == BadScheme <==> url != "" && !(StartsWith(url, "http://") || StartsWith(url, "https://"))
    ensures r == Accepted <==> StartsWith(url, "http://") || StartsWith(url, "https://")
  {
    SchemeMatchesPrefixes(url);
    if url == "" then MissingUrl
    else if !SchemeMatches(url) then BadScheme
    else Accepted
  }

  /** The lines of the test message. */
  const TestLines: seq<string> := [
    "**[테스트] Webhook이 정상적으로 동작하는지 확인합니다!**",
    "",
    "[공지 웹사이트 바로가기](https://computer.cnu.ac.kr)",
    "",
    "```java",
    "public class Main {",
    "    public static void main(String[] args) {",
    "        System.out.println(\"Hello, World!\");",
    "    }",
    "}",
    "```"
  ]

  /** None of the lines in `lo..hi` holds a newline. */
  predicate LinesFree(lo: nat, hi: nat)
    requires lo <= hi <= |TestLines|
  {
    forall k :: lo <= k < hi ==> '\n' !in TestLines[k]
  }

  lemma HeadingLinesFree()
    ensures LinesFree(0, 3)
  {
  }

  lemma FenceLinesFree()
    ensures LinesFree(3, 7)
  {
  }

  lemma CodeLinesFree()
    ensures LinesFree(7, 11)
  {
  }

  /** `markdownContent`: the lines joined with newlines, which split back into exactly those lines. */
  function TestMessage(): (r: string)
    ensures Split(r, '\n') == TestLines
  {
    HeadingLinesFree();
    FenceLinesFree();
    CodeLinesFree();
    SplitJoin(TestLines, '\n');
    Join(TestLines, "\n")
  }

  datatype Level = Warning | Success | Error

  /** A toast shown through `messageApi`. */
  datatype Toast = Toast(level: Level, text: string)

  /** How a fetch ended: an ok response, a response that is not ok, or a thrown error. */
  datatype Outcome = Ok | NotOk | Threw

  /** A request the form sends: to our endpoint with `{ url }`, or to the webhook with `{ content }`. */
  datatype Request = SaveRequest(url: string) | TestRequest(target: string, content: string)

  class WebhookInputBox {
    var url: string
    var loading: bool
    var testLoading: bool
    /** `inputStatus === 'error'`. */
    var inputError: bool
    var toasts: seq<Toast>

    constructor ()
      ensures url == "" && !loading && !testLoading && !inputError && toasts == []
    {
      url := "";
      loading := false;
      testLoading := false;
      inputError := false;
      toasts := [];
    }

    /** The input is disabled while either request runs, and editable only when neither does. */
    predicate InputDisabled()
      reads this
      ensures !InputDisabled() ==> !loading && !testLoading
    {
      loading || testLoading
    }

    /** The test button is disabled while saving, and then the input is disabled too. */
    predicate TestDisabled()
      reads this
      ensures TestDisabled() ==> InputDisabled()
    {
      loading
    }

    /** `onChange`. */
    method Edit(text: string)
      modifies this
      ensures url == text
      ensures loading == old(loading) && testLoading == old(testLoading)
      ensures inputError == old(inputError) && toasts == old(toasts)
    {
      url := text;
    }

    /** The timeout that ends the input's error state. */
    method ErrorTimeout()
      modifies this
      ensures !inputError
      ensures url == old(url) && loading == old(loading) && testLoading == old(testLoading) && toasts == old(toasts)
    {
      inputError := false;
    }

    /** `handleSave` up to the fetch: a rejected url sends nothing and marks the input. */
    method HandleSave() returns (request: Option<Request>)
      modifies this
      ensures request.Some? <==> Validate(old(url)) == Accepted
      ensures request.Some? ==>
                request.value == SaveRequest(old(url)) && loading && toasts == old(toasts) && inputError == old(inputError)
      ensures request.None? ==> inputError && loading == old(loading)
      ensures Validate(old(url)) == MissingUrl ==> toasts == old(toasts) + [Toast(Warning, "URL을 입력해주세요.")]
      ensures Validate(old(url)) == BadScheme ==>
                toasts == old(toasts) + [Toast(Warning, "URL은 http:// 또는 https://로 시작해야 합니다.")]
      ensures url == old(url) && testLoading == old(testLoading)
    {
      var verdict := Validate(url);
      if verdict == MissingUrl {
        toasts := toasts + [Toast(Warning, "URL을 입력해주세요.")];
        inputError := true;
        return None;
      }
      if verdict == BadScheme {
        toasts := toasts + [Toast(Warning, "URL은 http:// 또는 https://로 시작해야 합니다.")];
        inputError := true;
        return None;
      }
      loading := true;
      request := Some(SaveRequest(url));
    }

    /** The rest of `handleSave`: the url is cleared only on an ok response; loading always ends. */
    method SaveFinished(outcome: Outcome)
      modifies this
      ensures url == (if outcome == Ok then "" else old(url))
      ensures toasts == old(toasts) + [match outcome
                                       case Ok => Toast(Success, "Webhook URL이 저장되었습니다!")
                                       case NotOk => Toast(Error, "저장에 실패했습니다.")
                                       case Threw => Toast(Error, "오류가 발생했습니다.")]
      ensures !loading
      ensures testLoading == old(testLoading) && inputError == old(inputError)
    {
      match outcome {
        case Ok =>
          toasts := toasts + [Toast(Success, "Webhook URL이 저장되었습니다!")];
          url := "";
        case NotOk =>
          toasts := toasts + [Toast(Error, "저장에 실패했습니다.")];
        case Threw =>
          toasts := toasts + [Toast(Error, "오류가 발생했습니다.")];
      }
      loading := false;
    }

    /** `handleTest` up to the fetch: the same two checks, then the message goes to the url itself. */
    method HandleTest() returns (request: Option<Request>)
      modifies this
      ensures request.Some? <==> Validate(old(url)) == Accepted
      ensures request.Some? ==>
                request.value == TestRequest(old(url), TestMessage()) && testLoading && toasts == old(toasts) && inputError == old(inputError)
      ensures request.None? ==> inputError && testLoading == old(testLoading)
      ensures Validate(old(url)) == MissingUrl ==> toasts == old(toasts) + [Toast(Warning, "먼저 Webhook URL을 입력하세요.")]
      ensures Validate(old(url)) == BadScheme ==>
                toasts == old(toasts) + [Toast(Warning, "URL은 http:// 또는 https://로 시작해야 합니다.")]
      ensures url == old(url) && loading == old(loading)
    {
      var verdict := Validate(url);
      if verdict == MissingUrl {
        toasts := toasts + [Toast(Warning, "먼저 Webhook URL을 입력하세요.")];
        inputError := true;
        return None;
      }
      if verdict == BadScheme {
        toasts := toasts + [Toast(Warning, "URL은 http:// 또는 https://로 시작해야 합니다.")];
        inputError := true;
        return None;
      }
      testLoading := true;
      request := Some(TestRequest(url, TestMessage()));
    }

    /** The rest of `handleTest`: the url is kept whatever happens; test loading always ends. */
    method TestFinished(outcome: Outcome)
      modifies this
      ensures toasts == old(toasts) + [match outcome
                                       case Ok => Toast(Success, "테스트 메시지가 전송되었습니다!")
                                       case NotOk => Toast(Error, "테스트 메시지 전송에 실패했습니다.")
                                       case Threw => Toast(Error, "테스트 메시지 전송 중 오류가 발생했습니다.")]
      ensures !testLoading
      ensures url == old(url) && loading == old(loading) && inputError == old(inputError)
    {
      match outcome {
        case Ok =>
          toasts := toasts + [Toast(Success, "테스트 메시지가 전송되었습니다!")];
        case NotOk =>
          toasts := toasts + [Toast(Error, "테스트 메시지 전송에 실패했습니다.")];
        case Threw =>
          toasts := toasts + [Toast(Error, "테스트 메시지 전송 중 오류가 발생했습니다.")];
      }
      testLoading := false;
    }
  }
}
