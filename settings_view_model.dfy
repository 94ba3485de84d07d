/**
 * The server settings form: the pending host and port text, their error messages, whether
 * they differ from the stored server, and the writes to the preferences on submit and reset.
 */
module Settings {
  import opened Wrappers
  import opened Text

  const HOST_ERROR: string := "Please enter a valid host name or IP"
  const PORT_ERROR: string := "Please enter a valid port number below 65535"

  /** The form's model. The change error is the message of the thrown error, if any. */
  datatype UiModel = UiModel(
    host: string,
    portText: string,
    submitEnabled: bool,
    hostErrorMessage: Option<string>,
    portErrorMessage: Option<string>,
    changeError: Option<string>,
    complete: bool)
  {
    /** The port, or -1 when the text is not a 32-bit number. */
    function PortInt(): (r: int)
      ensures ToIntOrNull(portText).Some? ==> r == ToIntOrNull(portText).value
      ensures ToIntOrNull(portText).None? ==> r == -1
      ensures IsInt(r)
    {
      ToIntOrNull(portText).GetOr(-1)
    }

    predicate HasError() {
      hostErrorMessage.Some? || portErrorMessage.Some?
    }
  }

  /** A model with the given host and port text and the other fields at their defaults. */
  function Server(host: string, portText: string): UiModel {
    UiModel(host, portText, false, None, None, None, false)
  }

  /** `isValidHost`: no URL scheme separator. */
  predicate IsValidHost(host: string) {
    !Contains(host, "://")
  }

  /** The model `onUpdateModel` builds from the pending fields and the initial server. */
  function UpdatedModel(pendingHost: string, pendingPortText: string, initialServer: UiModel): (m: UiModel)
    ensures m.host == pendingHost && m.portText == pendingPortText
    ensures m.submitEnabled <==> pendingHost != initialServer.host || pendingPortText != initialServer.portText
    ensures m.hostErrorMessage.Some? <==> Contains(pendingHost, "://")
    ensures m.hostErrorMessage.Some? ==> m.hostErrorMessage.value == HOST_ERROR
    ensures m.portErrorMessage.Some? <==> m.PortInt() >= 65535
    ensures m.portErrorMessage.Some? ==> m.portErrorMessage.value == PORT_ERROR
    ensures m.changeError.None? && !m.complete
  {
    var pendingPort := ToIntOrNull(pendingPortText).GetOr(-1);
    UiModel(pendingHost, pendingPortText,
      pendingHost != initialServer.host || pendingPortText != initialServer.portText,
      if !IsValidHost(pendingHost) then Some(HOST_ERROR) else None,
      if pendingPort >= 65535 then Some(PORT_ERROR) else None,
      None, false)
  }

  /** A port text that is not a number gives no port error: it counts as -1. */
  lemma UnparsablePortHasNoError(pendingHost: string, pendingPortText: string, initialServer: UiModel)
    requires ToIntOrNull(pendingPortText).None?
    ensures UpdatedModel(pendingHost, pendingPortText, initialServer).portErrorMessage.None?
    ensures UpdatedModel(pendingHost, pendingPortText, initialServer).PortInt() == -1
  {
  }

  /** The form has an error exactly when the host has a scheme or the port is too large. */
  lemma UpdatedModelHasErrorIff(pendingHost: string, pendingPortText: string, initialServer: UiModel)
    ensures var m := UpdatedModel(pendingHost, pendingPortText, initialServer);
      m.HasError() <==> !IsValidHost(pendingHost) || m.PortInt() >= 65535
  {
  }

  /** Restoring the initial text disables submission. */
  lemma InitialTextDisablesSubmit(initialServer: UiModel)
    ensures !UpdatedModel(initialServer.host, initialServer.portText, initialServer).submitEnabled
  {
  }

  /**
   * The view model. The stored host and port are the two preference entries; the defaults
   * are the app's server constants.
   */
  class SettingsViewModel {
    const defaultHost: string
    const defaultPort: int
    var prefHost: Option<string>
    var prefPort: Option<int>
    var uiModel: UiModel
    var initialServer: UiModel
    var pendingHost: string
    var pendingPortText: string

    /** The source reads `uiModels` and `initialServer` only after `init`. */
    constructor(defaultHost: string, defaultPort: int, storedHost: Option<string>, storedPort: Option<int>)
      requires IsInt(defaultPort)
      requires storedPort.Some? ==> IsInt(storedPort.value)
      ensures this.defaultHost == defaultHost && this.defaultPort == defaultPort
      ensures prefHost == storedHost && prefPort == storedPort
      ensures uiModel == Server("", "") && initialServer == Server("", "")
      ensures pendingHost == "" && pendingPortText == ""
    {
      this.defaultHost := defaultHost;
      this.defaultPort := defaultPort;
      prefHost := storedHost;
      prefPort := storedPort;
      uiModel := Server("", "");
      initialServer := Server("", "");
      pendingHost := "";
      pendingPortText := "";
    }

    /** `getHost` */
    function Host(): string
      reads this
    {
      prefHost.GetOr(defaultHost)
    }

    /** `getPort` */
    function Port(): int
      reads this
    {
      prefPort.GetOr(defaultPort)
    }

    /** `init`: the stored server, or the default for a missing entry, is the initial model. */
    method Init()
      modifies this
      ensures initialServer == Server(prefHost.GetOr(defaultHost), IntToString(prefPort.GetOr(defaultPort)))
      ensures uiModel == initialServer
      ensures prefHost == old(prefHost) && prefPort == old(prefPort)
      ensures pendingHost == old(pendingHost) && pendingPortText == old(pendingPortText)
    {
      initialServer := Server(Host(), IntToString(Port()));
      uiModel := initialServer;
    }

    /** `onUpdateModel`, run after each write of a pending field. */
    method OnUpdateModel()
      modifies this
      ensures uiModel == UpdatedModel(pendingHost, pendingPortText, initialServer)
      ensures initialServer == old(initialServer) && prefHost == old(prefHost) && prefPort == old(prefPort)
      ensures pendingHost == old(pendingHost) && pendingPortText == old(pendingPortText)
    {
      uiModel := UpdatedModel(pendingHost, pendingPortText, initialServer);
    }

    /** The observable `pendingHost` setter. */
    method SetPendingHost(value: string)
      modifies this
      ensures pendingHost == value && pendingPortText == old(pendingPortText)
      ensures uiModel == UpdatedModel(value, pendingPortText, initialServer)
      ensures initialServer == old(initialServer) && prefHost == old(prefHost) && prefPort == old(prefPort)
    {
      pendingHost := value;
      OnUpdateModel();
    }

    /** The observable `pendingPortText` setter. */
    method SetPendingPortText(value: string)
      modifies this
      ensures pendingPortText == value && pendingHost == old(pendingHost)
      ensures uiModel == UpdatedModel(pendingHost, value, initialServer)
      ensures initialServer == old(initialServer) && prefHost == old(prefHost) && prefPort == old(prefPort)
    {
      pendingPortText := value;
      OnUpdateModel();
    }

    /** `submit`: stores the model's host and port, then marks the model complete. */
    method Submit()
      modifies this
      ensures prefHost == Some(old(uiModel).host) && prefPort == Some(old(uiModel).PortInt())
      ensures uiModel == old(uiModel).(changeError := None, complete := true)
      ensures initialServer == old(initialServer)
      ensures pendingHost == old(pendingHost) && pendingPortText == old(pendingPortText)
    {
      var host := uiModel.host;
      var port := uiModel.PortInt();
      prefHost := Some(host);
      prefPort := Some(port);
      uiModel := uiModel.(changeError := None, complete := true);
    }

    /** `resetServer`: the default server becomes the model and is submitted. */
    method ResetServer()
      requires IsInt(defaultPort)
      modifies this
      ensures prefHost == Some(defaultHost) && prefPort == Some(defaultPort)
      ensures Host() == defaultHost && Port() == defaultPort
      ensures uiModel == Server(defaultHost, IntToString(defaultPort)).(complete := true)
      ensures initialServer == old(initialServer)
      ensures pendingHost == old(pendingHost) && pendingPortText == old(pendingPortText)
    {
      uiModel := Server(defaultHost, IntToString(defaultPort));
      ParseSignedOfIntToString(defaultPort, INT_MIN, INT_MAX);
      Submit();
    }
  }

  /** Submitting a port text reads back as the same port once the preferences are reloaded. */
  lemma SubmittedPortRoundTrip(port: int)
    requires IsInt(port)
    ensures Server("", IntToString(port)).PortInt() == port
  {
    ParseSignedOfIntToString(port, INT_MIN, INT_MAX);
  }
}
