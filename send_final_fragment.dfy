/**
 * The last send screen: the state shown for each update of the pending transaction, and
 * the rule that the send form is cleared only once the transaction has been submitted.
 */
module SendFinal {
  import opened Wrappers
  import opened Sdk
  import Send

  /** The string resources of the screen. */
  datatype Res = PrimarySent | PrimaryFailed | PrimaryDetails | PrimaryRetry | PrimaryCancel
    | ErrorEncoding | ErrorSubmitting

  /**
   * A text on the screen: a literal, a resource, or the "sending <amount> ZEC to <address>"
   * title (the amount in zatoshi and the full address; the screen formats and abbreviates them).
   */
  datatype Text = Literal(s: string) | Resource(res: Res) | SendingTo(value: int, toAddress: string)

  /** What the primary button does. */
  datatype Action = NoAction | SeeDetails | ReturnToSend | CancelTx(txId: int)

  datatype UiModel = UiModel(
    showCloseIcon: bool,
    title: Text,
    errorDescription: Text,
    showProgress: bool,
    errorMessage: Text,
    primaryButtonText: Text,
    primaryAction: Action,
    showSecondaryButton: bool)

  /** The defaults of the data class. */
  const DEFAULT: UiModel := UiModel(true, Literal(""), Literal(""), false, Literal(""), Literal("See Details"),
    NoAction, false)

  /** Kotlin's `toString()` on a nullable string. */
  function NullableToString(s: Option<string>): (r: string)
    ensures s.Some? ==> r == s.value
    ensures s.None? ==> r == "null"
  {
    match s
    case Some(v) => v
    case None => "null"
  }

  /** The address shown while sending: the address value of an address recipient, else empty. */
  function RecipientAddress(recipient: TransactionRecipient): (r: string)
    ensures recipient.Address? ==> r == recipient.addressValue
    ensures recipient.Account? ==> r == ""
  {
    match recipient
    case Address(a) => a
    case Account(_) => ""
  }

  /** `PendingTransaction.toUiModel`: success first, then failure, else still in progress. */
  function ToUiModel(tx: PendingTransaction): (m: UiModel)
    ensures tx.flags.isSubmitSuccess ==>
      m == DEFAULT.(title := Resource(PrimarySent), primaryButtonText := Resource(PrimaryDetails),
        primaryAction := SeeDetails)
    ensures !tx.flags.isSubmitSuccess && tx.flags.isFailure ==>
      (m.primaryAction == ReturnToSend && m.showSecondaryButton && !m.showProgress && m.showCloseIcon
       && m.title == Resource(PrimaryFailed)
       && (m.errorMessage == Resource(ErrorEncoding) <==> tx.flags.isFailedEncoding)
       && (m.errorMessage == Resource(ErrorEncoding) || m.errorMessage == Resource(ErrorSubmitting))
       && m.errorDescription == Literal(NullableToString(tx.errorMessage))
       && m.primaryButtonText == Resource(PrimaryRetry))
    ensures !tx.flags.isSubmitSuccess && !tx.flags.isFailure ==>
      (m.showProgress && !m.showSecondaryButton
       && m.title == SendingTo(tx.value, RecipientAddress(tx.recipient))
       && m.errorMessage == Literal("") && m.errorDescription == Literal("")
       && (tx.flags.isCreating ==>
         (!m.showCloseIcon && m.primaryAction == CancelTx(tx.id) && m.primaryButtonText == Resource(PrimaryCancel)))
       && (!tx.flags.isCreating ==>
         (m.showCloseIcon && m.primaryAction == SeeDetails && m.primaryButtonText == Resource(PrimaryDetails))))
  {
    if tx.flags.isSubmitSuccess then
      DEFAULT.(title := Resource(PrimarySent), primaryButtonText := Resource(PrimaryDetails),
        primaryAction := SeeDetails)
    else if tx.flags.isFailure then
      DEFAULT.(title := Resource(PrimaryFailed),
        errorMessage := if tx.flags.isFailedEncoding then Resource(ErrorEncoding) else Resource(ErrorSubmitting),
        errorDescription := Literal(NullableToString(tx.errorMessage)),
        primaryButtonText := Resource(PrimaryRetry), primaryAction := ReturnToSend, showSecondaryButton := true)
    else
      var inProgress := DEFAULT.(title := SendingTo(tx.value, RecipientAddress(tx.recipient)), showProgress := true);
      if tx.flags.isCreating then
        inProgress.(showCloseIcon := false, primaryButtonText := Resource(PrimaryCancel), primaryAction := CancelTx(tx.id))
      else
        inProgress.(primaryButtonText := Resource(PrimaryDetails), primaryAction := SeeDetails)
  }

  /** The branch a pending transaction falls in. */
  predicate InProgress(tx: PendingTransaction) {
    !tx.flags.isSubmitSuccess && !tx.flags.isFailure
  }

  /**
   * Across the table: the close icon is hidden exactly while creating, the progress shows
   * exactly while in progress, and the secondary button exactly on failure.
   */
  lemma ToUiModelFlags(tx: PendingTransaction)
    ensures !ToUiModel(tx).showCloseIcon <==> InProgress(tx) && tx.flags.isCreating
    ensures ToUiModel(tx).showProgress <==> InProgress(tx)
    ensures ToUiModel(tx).showSecondaryButton <==> !tx.flags.isSubmitSuccess && tx.flags.isFailure
    ensures ToUiModel(tx).primaryAction.CancelTx? ==> ToUiModel(tx).primaryAction.txId == tx.id
    ensures ToUiModel(tx).primaryAction != NoAction
  {
  }

  /**
   * `onPendingTxUpdated`: ignores a null update and any update while the screen is not
   * resumed; otherwise shows the transaction's model and clears the send form once the
   * transaction has been submitted. The vibration is not modelled.
   */
  method OnPendingTxUpdated(vm: Send.SendViewModel, tx: Option<PendingTransaction>, isResumed: bool)
    returns (shown: Option<UiModel>)
    modifies vm
    ensures tx.None? || !isResumed ==> shown.None?
    ensures tx.Some? && isResumed ==> shown == Some(ToUiModel(tx.value))
    ensures vm.metrics == old(vm.metrics)
    ensures tx.Some? && isResumed && tx.value.flags.isSubmitSuccess ==>
      (vm.fromAddress == "" && vm.toAddress == "" && vm.memo == "" && vm.zatoshiAmount.None? && !vm.includeFromAddress)
    ensures !(tx.Some? && isResumed && tx.value.flags.isSubmitSuccess) ==>
      (vm.fromAddress == old(vm.fromAddress) && vm.toAddress == old(vm.toAddress) && vm.memo == old(vm.memo)
       && vm.zatoshiAmount == old(vm.zatoshiAmount) && vm.includeFromAddress == old(vm.includeFromAddress))
  {
    if tx.None? || !isResumed {
      return None;
    }
    shown := Some(ToUiModel(tx.value));
    if tx.value.flags.isSubmitSuccess {
      vm.Reset();
    }
  }
}
