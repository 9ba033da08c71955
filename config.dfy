/** The configuration records the auto-configuration reads, the server-config
    default it applies, and the codec choice with its fallbacks. */
module Config {
  import opened Wrappers

  /** The two `EurekaClientConfig` flags this configuration consults. */
  datatype ClientConfig = ClientConfig(
    useDnsForFetchingServiceUrls: bool,
    shouldRegisterWithEureka: bool)

  /** The `EurekaServerConfig` properties this configuration reads or sets;
      a codec name may be unset (null). */
  datatype ServerConfig = ServerConfig(
    jsonCodecName: Option<string>,
    xmlCodecName: Option<string>,
    registrySyncRetries: int)

  /** Retry count applied when the server also registers with its peers. */
  const ReplicatingSyncRetries: int := 5

  /** `eurekaServerConfig`: a fresh server config bean (whose defaults are given),
      with the registry-sync retries raised to 5 when this server registers itself
      with Eureka, that is, when it is expected to replicate. */
  function EurekaServerConfig(clientConfig: ClientConfig, beanDefaults: ServerConfig): (server: ServerConfig)
    ensures clientConfig.shouldRegisterWithEureka ==> server.registrySyncRetries == ReplicatingSyncRetries
    ensures !clientConfig.shouldRegisterWithEureka ==> server == beanDefaults
    ensures server.jsonCodecName == beanDefaults.jsonCodecName && server.xmlCodecName == beanDefaults.xmlCodecName
  {
    if clientConfig.shouldRegisterWithEureka then
      beanDefaults.(registrySyncRetries := ReplicatingSyncRetries)
    else
      beanDefaults
  }

  /** A codec wrapper, known to the codec registry by its name. */
  datatype CodecWrapper = CodecWrapper(codecName: string)

  /** The process-wide codec registry behind `CodecWrappers.getCodec`. */
  type CodecRegistry = map<string, CodecWrapper>

  /** `CodecWrappers.getCodec(name)`: the registered codec, or null for an unknown
      or unset name. */
  function GetCodec(registry: CodecRegistry, name: Option<string>): (codec: Option<CodecWrapper>)
    ensures codec.Some? <==> name.Some? && name.value in registry
    ensures codec.Some? ==> codec == Some(registry[name.value]) && codec.value in registry.Values
  {
    match name
    case Some(n) => if n in registry then Some(registry[n]) else None
    case None => None
  }

  /** The codec registered under `configured`, or the one registered under
      `fallbackName` when the configured lookup yields null. */
  function CodecOrFallback(registry: CodecRegistry, configured: Option<string>, fallbackName: string): (codec: Option<CodecWrapper>)
    ensures GetCodec(registry, configured).Some? ==> codec == GetCodec(registry, configured)
    ensures GetCodec(registry, configured).None? ==> codec == GetCodec(registry, Some(fallbackName))
    ensures codec.Some? <==> (configured.Some? && configured.value in registry) || fallbackName in registry
    ensures codec.Some? ==> codec.value in registry.Values
  {
    var found := GetCodec(registry, configured);
    if found.None? then GetCodec(registry, Some(fallbackName)) else found
  }

  /** `getFullJson`: the configured JSON codec, else the Jackson JSON codec that the
      configuration registers at class-initialisation time. */
  function GetFullJson(registry: CodecRegistry, serverConfig: ServerConfig, jacksonJsonName: string): (codec: Option<CodecWrapper>)
    ensures jacksonJsonName in registry ==> codec.Some?
    ensures GetCodec(registry, serverConfig.jsonCodecName).None? ==> codec == GetCodec(registry, Some(jacksonJsonName))
    ensures match serverConfig.jsonCodecName
            case Some(n) => n in registry ==> codec == Some(registry[n])
            case None => codec == GetCodec(registry, Some(jacksonJsonName))
  {
    CodecOrFallback(registry, serverConfig.jsonCodecName, jacksonJsonName)
  }

  /** `getFullXml`: the configured XML codec, else the XStream XML codec. */
  function GetFullXml(registry: CodecRegistry, serverConfig: ServerConfig, xStreamXmlName: string): (codec: Option<CodecWrapper>)
    ensures xStreamXmlName in registry ==> codec.Some?
    ensures GetCodec(registry, serverConfig.xmlCodecName).None? ==> codec == GetCodec(registry, Some(xStreamXmlName))
    ensures match serverConfig.xmlCodecName
            case Some(n) => n in registry ==> codec == Some(registry[n])
            case None => codec == GetCodec(registry, Some(xStreamXmlName))
  {
    CodecOrFallback(registry, serverConfig.xmlCodecName, xStreamXmlName)
  }

  /** The class initialiser registers the Jackson JSON wrapper under its own name;
      from then on the full JSON codec is never null, whatever name is configured. */
  lemma FullJsonAfterRegistration(registry: CodecRegistry, jacksonJson: CodecWrapper, serverConfig: ServerConfig)
    ensures var registered := registry[jacksonJson.codecName := jacksonJson];
            GetFullJson(registered, serverConfig, jacksonJson.codecName).Some?
  {
  }
}
