/**
 * The analytics vocabulary of the wallet: screens viewed, buttons tapped, send-funnel
 * steps, issues, performance metrics, transaction errors and timed metrics. What is
 * modelled is how each event derives its key, its description and its recorded
 * properties; delivering events to the feedback sink is not part of this model.
 */
module Report {
  import opened Wrappers
  import opened Text

  /** A recorded property value. */
  datatype Value = StrValue(s: string) | IntValue(i: int) | BoolValue(b: bool)

  //
  // Screens
  //

  /** `Report.Screen`, each with the optional explicit id of its declaration. */
  datatype Screen
    = Backup
    | Home
    | History
    | Transaction
    | Landing
    | Profile
    | Awesome
    | Feedback
    | Receive
    | Restore
    | Scan
    | AutoShieldFinal
    | AutoShieldAvailable
    | AutoShieldInformation
    | SendAddress
    | SendConfirm
    | SendFinal
    | SendMemo
  {
    function Id(): Option<string> {
      match this
      case Backup => None
      case Home => None
      case History => Some("wallet.history")
      case Transaction => Some("wallet.transaction")
      case Landing => None
      case Profile => None
      case Awesome => None
      case Feedback => None
      case Receive => None
      case Restore => None
      case Scan => None
      case AutoShieldFinal => Some("autoshield.final")
      case AutoShieldAvailable => Some("autoshield.available")
      case AutoShieldInformation => Some("autoshield.information")
      case SendAddress => Some("send.address")
      case SendConfirm => Some("send.confirm")
      case SendFinal => Some("send.final")
      case SendMemo => Some("send.memo")
    }

    /** The enum constant's own name. */
    function Name(): string {
      match this
      case Backup => "BACKUP"
      case Home => "HOME"
      case History => "HISTORY"
      case Transaction => "TRANSACTION"
      case Landing => "LANDING"
      case Profile => "PROFILE"
      case Awesome => "AWESOME"
      case Feedback => "FEEDBACK"
      case Receive => "RECEIVE"
      case Restore => "RESTORE"
      case Scan => "SCAN"
      case AutoShieldFinal => "AUTO_SHIELD_FINAL"
      case AutoShieldAvailable => "AUTO_SHIELD_AVAILABLE"
      case AutoShieldInformation => "AUTO_SHIELD_INFORMATION"
      case SendAddress => "SEND_ADDRESS"
      case SendConfirm => "SEND_CONFIRM"
      case SendFinal => "SEND_FINAL"
      case SendMemo => "SEND_MEMO"
    }

    /** The part of the key after `screen.`: the id, else the lower-cased name. */
    function Label(): string {
      Id().GetOr(Lower(Name()))
    }

    function Key(): string {
      ScreenKey(Label())
    }

    function ToString(): string {
      ScreenDescription(Key())
    }
  }

  function ScreenKey(tail: string): string {
    "screen." + tail
  }

  /** `"viewed the ${key.substring(7).replace('.', ' ')} screen"`; `substring(7)` throws on a shorter key. */
  function ScreenDescription(key: string): string
    requires |key| >= 7
  {
    "viewed the " + ReplaceChar(key[7..], '.', ' ') + " screen"
  }

  /**
   * A screen key is `screen.` followed by its label, and its description names that
   * label, dots read as spaces, between `viewed the ` and ` screen`.
   */
  lemma ScreenDescriptionOfKey(tail: string)
    ensures ScreenDescription(ScreenKey(tail)) == "viewed the " + ReplaceChar(tail, '.', ' ') + " screen"
    ensures '.' !in ScreenDescription(ScreenKey(tail))
  {
    assert ScreenKey(tail)[7..] == tail;
    var mid := ReplaceChar(tail, '.', ' ');
    var t := ScreenDescription(ScreenKey(tail));
    forall k | 0 <= k < |t| ensures t[k] != '.' {
      if 11 <= k < 11 + |mid| { assert t[k] == mid[k - 11]; }
    }
  }

  /** Every screen's key is `screen.` and its id, else its lower-cased name. */
  lemma ScreenKeyAndDescription(s: Screen)
    ensures s.Key() == "screen." + (if s.Id().Some? then s.Id().value else Lower(s.Name()))
    ensures s.ToString() == "viewed the " + ReplaceChar(s.Label(), '.', ' ') + " screen"
    ensures '.' !in s.ToString()
  {
    ScreenDescriptionOfKey(s.Label());
  }

  //
  // Taps
  //

  /** `Report.Tap` */
  datatype Tap
    = BackupDone | BackupVerify | DeveloperWalletPrompt | DeveloperWalletImport
    | DeveloperWalletCancel | LandingRestore | LandingNew | LandingBackup | LandingBackupSkipped1
    | LandingBackupSkipped2 | LandingBackupSkipped3 | HomeProfile | HomeHistory | HomeReceive
    | HomeBalanceDetail | TabLayout | HomeScan | HomeSend | HomeFundNow | HomeClearAmount
    | HistoryBack | TransactionBack | ProfileClose | AwesomeOpen | AwesomeClose | AwesomeShield
    | ProfileBackup | ProfileRescan | ProfileViewUserLogs | ProfileViewDevLogs
    | ProfileSendFeedback | FeedbackCancel | FeedbackSubmit | ReceiveBack | RestoreDone
    | RestoreClear | RestoreSuccess | RestoreBack | ScanBack | AutoShieldFinalClose
    | AutoShieldFinalDone | SendAddressMax | SendAddressNext | SendAddressPaste | SendAddressReuse
    | SendAddressBack | SendAddressDoneAddress | SendAddressDoneAmount | SendAddressScan
    | SendConfirmBack | SendConfirmNext | SendFinalExit | SendFinalRetry | SendFinalClose
    | SendMemoInclude | SendMemoExclude | SendMemoNext | SendMemoSkip | SendMemoClear
    | SendMemoBack | SendSubmit | CopyAddress | CopyTransparentAddress
  {
    function Id(): string {
      match this
      case BackupDone => "backup.done"
      case BackupVerify => "backup.verify"
      case DeveloperWalletPrompt => "landing.devwallet.prompt"
      case DeveloperWalletImport => "landing.devwallet.import"
      case DeveloperWalletCancel => "landing.devwallet.cancel"
      case LandingRestore => "landing.restore"
      case LandingNew => "landing.new"
      case LandingBackup => "landing.backup"
      case LandingBackupSkipped1 => "landing.backup.skip.1"
      case LandingBackupSkipped2 => "landing.backup.skip.2"
      case LandingBackupSkipped3 => "landing.backup.skip.3"
      case HomeProfile => "home.profile"
      case HomeHistory => "home.history"
      case HomeReceive => "home.receive"
      case HomeBalanceDetail => "home.balance.detail"
      case TabLayout => "tab.layout"
      case HomeScan => "home.scan"
      case HomeSend => "home.send"
      case HomeFundNow => "home.fund.now"
      case HomeClearAmount => "home.clear.amount"
      case HistoryBack => "history.back"
      case TransactionBack => "transaction.back"
      case ProfileClose => "profile.close"
      case AwesomeOpen => "profile.awesome"
      case AwesomeClose => "awesome.close"
      case AwesomeShield => "awesome.shield"
      case ProfileBackup => "profile.backup"
      case ProfileRescan => "profile.rescan"
      case ProfileViewUserLogs => "profile.view.user.logs"
      case ProfileViewDevLogs => "profile.view.dev.logs"
      case ProfileSendFeedback => "profile.send.feedback"
      case FeedbackCancel => "feedback.cancel"
      case FeedbackSubmit => "feedback.submit"
      case ReceiveBack => "receive.back"
      case RestoreDone => "restore.done"
      case RestoreClear => "restore.clear"
      case RestoreSuccess => "restore.success"
      case RestoreBack => "restore.back"
      case ScanBack => "scan.back"
      case AutoShieldFinalClose => "autoshield.final.close"
      case AutoShieldFinalDone => "autoshield.final.done"
      case SendAddressMax => "send.address.max"
      case SendAddressNext => "send.address.next"
      case SendAddressPaste => "send.address.paste"
      case SendAddressReuse => "send.address.reuse"
      case SendAddressBack => "send.address.back"
      case SendAddressDoneAddress => "send.address.done.address"
      case SendAddressDoneAmount => "send.address.done.amount"
      case SendAddressScan => "send.address.scan"
      case SendConfirmBack => "send.confirm.back"
      case SendConfirmNext => "send.confirm.next"
      case SendFinalExit => "send.final.exit"
      case SendFinalRetry => "send.final.retry"
      case SendFinalClose => "send.final.close"
      case SendMemoInclude => "send.memo.include"
      case SendMemoExclude => "send.memo.exclude"
      case SendMemoNext => "send.memo.next"
      case SendMemoSkip => "send.memo.skip"
      case SendMemoClear => "send.memo.clear"
      case SendMemoBack => "send.memo.back"
      case SendSubmit => "send.submit"
      case CopyAddress => "copy.address"
      case CopyTransparentAddress => "copy.address.transparent"
    }

    function Key(): string {
      "tap." + Id()
    }

    function ToString(): string {
      TapDescription(Key())
    }
  }

  /** `"${key.replace('.', ' ')} button".replace("tap ", "tapped the ")` */
  function TapDescription(key: string): string {
    ReplaceAll(ReplaceChar(key, '.', ' ') + " button", "tap ", "tapped the ")
  }

  /** No `tap ` can start in `x` and run on into `button`, since it holds no `b`. */
  lemma NoTapStraddlesButton(x: string)
    ensures NoStraddle(x, "button", "tap ")
  {
    forall i | 0 <= i < |x| && |x| < i + 4 ensures !OccursAt(x + "button", "tap ", i) {
      var w := x + "button";
      assert w[|x|] == 'b';
      if i + 4 <= |w| { assert w[i..i + 4][|x| - i] == w[|x|]; }
    }
  }

  lemma ButtonHasNoTap()
    ensures ReplaceAll("button", "tap ", "tapped the ") == "button"
  {
    forall i | 0 <= i < 6 ensures !OccursAt("button", "tap ", i) {
      if i + 4 <= 6 { assert "button"[i..i + 4][0] == "button"[i] && "button"[i..i + 4][1] == "button"[i + 1]; }
    }
    ReplaceAllNoOccurrence("button", "tap ", "tapped the ");
  }

  /** Before the `tap ` replacement, a tap key's text is `tap `, the id with spaces, a space and `button`. */
  lemma TapKeySpaced(id: string)
    ensures ReplaceChar("tap." + id, '.', ' ') + " button"
      == ("tap " + ReplaceChar(id, '.', ' ') + " ") + "button"
  {
    ReplaceCharAppend("tap.", id, '.', ' ');
    assert ReplaceChar("tap.", '.', ' ') == "tap ";
  }

  /** Text that ends in a space, followed by `button`, still ends in ` button` after the replacement. */
  lemma {:induction false} ReplacedEndsWithButton(x: string)
    requires |x| > 0 && x[|x| - 1] == ' '
    ensures EndsWith(ReplaceAll(x + "button", "tap ", "tapped the "), " button")
  {
    NoTapStraddlesButton(x);
    ReplaceAllAppend(x, "button", "tap ", "tapped the ");
    ButtonHasNoTap();
    ReplaceAllKeepsLast(x, "tap ", "tapped the ");
    EndsWithLastChar(ReplaceAll(x, "tap ", "tapped the "), "button");
  }

  /** A non-empty text followed by `tail` ends with its last character and `tail`. */
  lemma EndsWithLastChar(r: string, tail: string)
    requires |r| > 0
    ensures EndsWith(r + tail, [r[|r| - 1]] + tail)
  {
    assert (r + tail)[|r| - 1..] == [r[|r| - 1]] + tail;
  }

  /** A tap key `tap.<id>` reads `tapped the ... button`, whatever the id. */
  lemma {:induction false} TapDescriptionShape(id: string)
    ensures StartsWith(TapDescription("tap." + id), "tapped the ")
    ensures EndsWith(TapDescription("tap." + id), " button")
  {
    var x := "tap " + ReplaceChar(id, '.', ' ') + " ";
    TapKeySpaced(id);
    assert StartsWith(x + "button", "tap ");
    ReplaceAllPrefix(x + "button", "tap ", "tapped the ");
    ReplacedEndsWithButton(x);
  }

  /** Every tap's key is `tap.` and its id, and its description reads `tapped the ... button`. */
  lemma TapKeyAndDescription(t: Tap)
    ensures t.Key() == "tap." + t.Id()
    ensures StartsWith(t.ToString(), "tapped the ") && EndsWith(t.ToString(), " button")
  {
    TapDescriptionShape(t.Id());
  }

  //
  // Issues and performance metrics
  //

  /** `Report.Issue` */
  datatype Issue
    = SelfSend
    | TinyAmount
    | MicroAmount
    | MinimumAmount
    | TruncatedMemo(memoSize: int)
    | LargeMemo(memoSize: int)
    | MissingViewkey(recovered: bool, needle: string, haystack: string, hasKey: bool)
  {
    function Name(): string {
      match this
      case SelfSend => "self.send"
      case TinyAmount => "tiny.amount"
      case MicroAmount => "micro.amount"
      case MinimumAmount => "minimum.amount"
      case TruncatedMemo(_) => "truncated.memo"
      case LargeMemo(_) => "large.memo"
      case MissingViewkey(_, _, _, _) => "missing.viewkey"
    }

    function Key(): (k: string)
      ensures StartsWith(k, "issue.") && k[6..] == Name()
    {
      "issue." + Name()
    }

    /** The recorded properties: the issue's name, the issue marker, then its own. */
    function Properties(): (p: seq<(string, Value)>)
      ensures |p| >= 2 && p[0] == ("issueName", StrValue(Name())) && p[1] == ("isIssue", BoolValue(true))
    {
      [("issueName", StrValue(Name())), ("isIssue", BoolValue(true))] +
      match this
      case TruncatedMemo(n) => [("memoSize", IntValue(n))]
      case LargeMemo(n) => [("memoSize", IntValue(n))]
      case MissingViewkey(recovered, needle, haystack, hasKey) =>
        [("wasAbleToRecover", BoolValue(recovered)), ("needle", StrValue(needle)),
         ("haystack", StrValue(haystack)), ("hasKey", BoolValue(hasKey))]
      case _ => []
    }
  }

  /** `Report.Performance` */
  datatype Performance = ScanRate(network: string, cumulativeItems: int, cumulativeTime: int, cumulativeIps: real)
  {
    function Name(): string { "scan.bps" }

    function Key(): (k: string)
      ensures StartsWith(k, "performance.") && k[12..] == Name()
    {
      "performance." + Name()
    }
  }

  //
  // The send funnel
  //

  /** `Report.Funnel.Send`: the steps of one send, in the funnel named `send`. */
  datatype SendStep
    = AddressPageComplete
    | MemoPageComplete
    | ConfirmPageComplete
    | SendSelected
    | SpendingKeyFound
    | Creating
    | Cancelled
    | Created(id: int)
    | Submitted
    | Mined(minedHeight: int)
    | ErrorNotFound
    | ErrorEncoding(code: Option<int>, message: Option<string>)
    | ErrorSubmitting(code: Option<int>, message: Option<string>)
  {
    predicate IsError() { ErrorNotFound? || ErrorEncoding? || ErrorSubmitting? }

    function StepName(): string {
      match this
      case AddressPageComplete => "addresspagecomplete"
      case MemoPageComplete => "memopagecomplete"
      case ConfirmPageComplete => "confirmpagecomplete"
      case SendSelected => "sendselected"
      case SpendingKeyFound => "keyfound"
      case Creating => "creating"
      case Cancelled => "cancelled"
      case Created(_) => "created"
      case Submitted => "submitted"
      case Mined(_) => "mined"
      case ErrorNotFound => "error." + "notfound"
      case ErrorEncoding(_, _) => "error." + "encode"
      case ErrorSubmitting(_, _) => "error." + "submit"
    }

    function Step(): int {
      match this
      case AddressPageComplete => 10
      case MemoPageComplete => 20
      case ConfirmPageComplete => 30
      case SendSelected => 50
      case SpendingKeyFound => 60
      case Creating => 70
      case Cancelled => 72
      case Created(_) => 80
      case Submitted => 90
      case Mined(_) => 100
      case ErrorNotFound => 51
      case ErrorEncoding(_, _) => 71
      case ErrorSubmitting(_, _) => 81
    }

    /** The error code and message an error step carries (`Send.Error`'s fields). */
    function ErrorCode(): Option<int>
      requires IsError()
    {
      if ErrorNotFound? then None else code
    }

    function ErrorMessage(): Option<string>
      requires IsError()
    {
      if ErrorNotFound? then Some("Key not found") else message
    }

    /** The recorded properties; an error's missing code and message are recorded as -1 and "None". */
    function Properties(): seq<(string, Value)> {
      match this
      case Created(id) => [("id", IntValue(id))]
      case Mined(h) => [("minedHeight", IntValue(h))]
      case ErrorNotFound => [("isError", BoolValue(true))]
      case ErrorEncoding(c, m) =>
        [("isError", BoolValue(true)), ("errorCode", IntValue(c.GetOr(-1))), ("errorMessage", StrValue(m.GetOr("None")))]
      case ErrorSubmitting(c, m) =>
        [("isError", BoolValue(true)), ("errorCode", IntValue(c.GetOr(-1))), ("errorMessage", StrValue(m.GetOr("None")))]
      case _ => []
    }
  }

  /** The funnel's main path, from the address page to the mined transaction. */
  function MainPath(id: int, minedHeight: int): seq<SendStep> {
    [AddressPageComplete, MemoPageComplete, ConfirmPageComplete, SendSelected, SpendingKeyFound,
     Creating, Created(id), Submitted, Mined(minedHeight)]
  }

  /** Steps along the main path increase strictly, from 10 to 100. */
  lemma MainPathStepsIncrease(id: int, minedHeight: int)
    ensures var p := MainPath(id, minedHeight);
      p[0].Step() == 10 && p[|p| - 1].Step() == 100 &&
      forall i, j :: 0 <= i < j < |p| ==> p[i].Step() < p[j].Step()
  {
  }

  /** The two transaction errors record their step, their code (else -1) and their message (else "None"). */
  lemma ErrorStepDefaults(code: Option<int>, message: Option<string>)
    ensures ErrorEncoding(code, message).StepName() == "error.encode" && ErrorEncoding(code, message).Step() == 71
    ensures ErrorSubmitting(code, message).StepName() == "error.submit" && ErrorSubmitting(code, message).Step() == 81
    ensures forall e :: e in {ErrorEncoding(code, message), ErrorSubmitting(code, message)} ==>
      e.Properties()[1] == ("errorCode", IntValue(if code.Some? then code.value else -1)) &&
      e.Properties()[2] == ("errorMessage", StrValue(if message.Some? then message.value else "None"))
  {
  }

  //
  // Non-fatal transaction errors
  //

  /** `Report.Error.NonFatal.TxError` */
  datatype TxError = TxEncodeError(code: Option<int>, message: Option<string>) | TxSubmitError(code: Option<int>, message: Option<string>)
  {
    function Action(): string {
      if TxEncodeError? then "encode" else "submit"
    }

    /** The error's key. */
    function Name(): (n: string)
      ensures StartsWith(n, "tx.") && n[3..] == Action()
      ensures n == "tx.encode" <==> TxEncodeError?
    {
      "tx." + Action()
    }

    /** Kotlin renders a missing message as `null`. */
    function Description(): string {
      "Failed to " + Action() + " transaction due to " + message.GetOr("null")
    }

    /** The recorded code: the error's code, else 1. */
    function Properties(): (p: seq<(string, Value)>)
      ensures p == [("errorCode", IntValue(if code.Some? then code.value else 1))]
    {
      [("errorCode", IntValue(code.GetOr(1)))]
    }
  }

  //
  // Timed metrics
  //

  /** `Report.MetricType` */
  datatype MetricType
    = EntropyCreated | SeedCreated | SeedImported | SeedPhraseCreated | SeedPhraseLoaded
    | WalletCreated | WalletImported | AccountCreated
    | TransactionInitialized | TransactionCreated | TransactionSubmitted | TransactionMined
  {
    function Key(): string {
      match this
      case EntropyCreated => "metric.entropy.created"
      case SeedCreated => "metric.seed.created"
      case SeedImported => "metric.seed.imported"
      case SeedPhraseCreated => "metric.seedphrase.created"
      case SeedPhraseLoaded => "metric.seedphrase.loaded"
      case WalletCreated => "metric.wallet.created"
      case WalletImported => "metric.wallet.imported"
      case AccountCreated => "metric.account.created"
      case TransactionInitialized => "metric.tx.initialized"
      case TransactionCreated => "metric.tx.created"
      case TransactionSubmitted => "metric.tx.submitted"
      case TransactionMined => "metric.tx.mined"
    }

    function Description(): string {
      match this
      case EntropyCreated => "entropy created"
      case SeedCreated => "seed created"
      case SeedImported => "seed imported"
      case SeedPhraseCreated => "seed phrase created"
      case SeedPhraseLoaded => "seed phrase loaded"
      case WalletCreated => "wallet created"
      case WalletImported => "wallet imported"
      case AccountCreated => "account created"
      case TransactionInitialized => "transaction initialized"
      case TransactionCreated => "transaction created successfully"
      case TransactionSubmitted => "transaction submitted successfully"
      case TransactionMined => "transaction mined"
    }
  }

  /** Distinct metric types have distinct keys. */
  lemma MetricKeysDistinct(a: MetricType, b: MetricType)
    ensures a.Key() == b.Key() <==> a == b
  {
  }
}
