/**
 * The shared Proxmox client: one `ProxmoxClient` per process (the class
 * attribute `_instance`), and inside it one proxmoxer connection created on
 * first use (`_client`). Reading config/proxmox.yml is not modelled: the
 * settings it would yield are a parameter.
 */
module ProxmoxConnection {
  import opened Wrappers

  /** The `proxmox` section of the client configuration. */
  datatype Settings = Settings(host: string, user: string, tokenName: string, tokenValue: string, verifySsl: Option<bool>)

  /** A proxmoxer `ProxmoxAPI` object, with the arguments it was opened with. */
  class ApiSession {
    const host: string
    const user: string
    const tokenName: string
    const tokenValue: string
    const verifySsl: bool

    /** `verify_ssl` defaults to true when the setting is absent. */
    constructor (s: Settings)
      ensures host == s.host && user == s.user
      ensures tokenName == s.tokenName && tokenValue == s.tokenValue
      ensures verifySsl == s.verifySsl.GetOr(true)
    {
      host, user := s.host, s.user;
      tokenName, tokenValue := s.tokenName, s.tokenValue;
      verifySsl := s.verifySsl.GetOr(true);
    }
  }

  class ProxmoxClient {
    const configPath: string
    const settings: Settings
    var session: ApiSession?

    constructor (configPath: string, settings: Settings)
      ensures this.configPath == configPath && this.settings == settings
      ensures session == null
    {
      this.configPath := configPath;
      this.settings := settings;
      session := null;
    }

    /** The `client` property: the connection is opened on the first call and reused afterwards. */
    method Client() returns (c: ApiSession)
      modifies this`session
      ensures session == c
      ensures old(session) != null ==> c == old(session)
      ensures old(session) == null ==> (
        && fresh(c) && c.host == settings.host && c.user == settings.user
        && c.tokenName == settings.tokenName && c.tokenValue == settings.tokenValue
        && c.verifySsl == settings.verifySsl.GetOr(true))
    {
      if session == null {
        session := new ApiSession(settings);
      }
      c := session;
    }
  }

  /** Holds the class attribute `ProxmoxClient._instance`. */
  class ClientRegistry {
    var instance: ProxmoxClient?

    constructor ()
      ensures instance == null
    {
      instance := null;
    }

    /**
     * `get_instance`: the first call creates the client from its arguments;
     * every later call returns that same client and ignores its arguments.
     */
    method GetInstance(configPath: string, settings: Settings) returns (c: ProxmoxClient)
      modifies this
      ensures instance == c
      ensures old(instance) != null ==> c == old(instance)
      ensures old(instance) == null ==> fresh(c) && c.configPath == configPath && c.settings == settings && c.session == null
    {
      if instance == null {
        instance := new ProxmoxClient(configPath, settings);
      }
      c := instance;
    }
  }

  /**
   * Two services starting in one process: both get the same client, the
   * second one's settings are ignored, and the connection is opened once.
   */
  method SharedByTwoServices(reg: ClientRegistry, path1: string, s1: Settings, path2: string, s2: Settings)
    returns (first: ApiSession, second: ApiSession)
    requires reg.instance == null
    modifies reg
    ensures first == second && fresh(first) && first.host == s1.host
  {
    var a := reg.GetInstance(path1, s1);
    first := a.Client();
    var b := reg.GetInstance(path2, s2);
    second := b.Client();
  }
}
