# Eureka server auto-configuration: peer refresh, peer nodes and the version filter

This project models, in Dafny, the self-contained decision and string logic of the
Spring Cloud Netflix Eureka server auto-configuration
(`EurekaServerAutoConfiguration.java`):

- **Peer refresh.** `RefreshablePeerEurekaNodes` listens for environment-change
  events. It asks for the peer nodes to be rebuilt only when DNS-based lookup of
  service URLs is off and the changed keys include `eureka.client.region` or a key
  under `eureka.client.service-url.` or `eureka.client.availability-zones.`.
  `RefreshRequired` states that rule over a set of keys. The class method
  `ShouldUpdate` runs the source's scan with its early return and is proved equal
  to the rule. `OnApplicationEvent` appends the freshly resolved peer URLs to a log
  of update requests exactly when the rule holds.
- **Peer-node creation.** A peer node keeps its URL unchanged. Its target host is
  the host parsed from the URL, or the label `"host"` when no host can be parsed.
- **Version filter.** The servlet filter forwards requests under the Eureka prefix
  to the `/v2` API. A URI already under `<prefix>/v2` passes through, and so does
  dashboard static content (`<context path><prefix>/(fonts|images|css|js)/...`,
  where the context path is put in front only when it has text). Any other URI
  becomes `<prefix>/v2` followed by what comes after its first `|prefix|`
  characters. The rewrite is proved idempotent. The static-content test is proved
  equal to the regex's language.
- **Configuration defaults.** The server config sets 5 registry-sync retries when
  the server registers with Eureka. The full JSON and XML codecs fall back to the
  Jackson JSON and XStream XML codecs when the configured name finds no codec.

Modules: `Wrappers` (Option, Result), `JavaText` (`startsWith`,
`Character.isWhitespace`, `StringUtils.hasText`, the line terminators that the
regex `.` does not match), `Config`, `PeerNodes` and `VersionFilter`.

External values are parameters:

- `DEFAULT_PREFIX` (from `EurekaConstants`).
- The codec names.
- The defaults of `EurekaServerConfigBean`.
- `hostFromUrl`, a function `string -> Option<string>`.
- The URL list that `resolvePeerUrls()` returns at the time of the event.

## Model

| member | source | states |
|---|---|---|
| `PeerNodes.RefreshRequired` | spring-cloud-netflix-eureka-server/src/main/java/org/springframework/cloud/netflix/eureka/server/EurekaServerAutoConfiguration.java:412-433 | With DNS-based service-URL lookup on, no key set asks for a refresh. With it off, a refresh is asked for exactly when some changed key is the region key or starts with one of the two dotted per-zone prefixes. |
| `PeerNodes.RefreshRequiredUnion` | spring-cloud-netflix-eureka-server/src/main/java/org/springframework/cloud/netflix/eureka/server/EurekaServerAutoConfiguration.java:425-431 | The rule asks for a refresh on the union of two key sets exactly when it does on one of them. |
| `PeerNodes.RefreshRequiredBoundaries` | spring-cloud-netflix-eureka-server/src/main/java/org/springframework/cloud/netflix/eureka/server/EurekaServerAutoConfiguration.java:417-431 | DNS mode with the region key gives false. The empty set gives false. The region key alone and a `service-url.` key give true. `eureka.client.availability-zones` (no dot) and `eureka.client.region.x` give false. |
| `PeerNodes.RefreshablePeerEurekaNodes.ShouldUpdate` | spring-cloud-netflix-eureka-server/src/main/java/org/springframework/cloud/netflix/eureka/server/EurekaServerAutoConfiguration.java:412-433 | The flag test, the region test and the scan with early return over the changed keys return exactly `RefreshRequired` for the current client config. |
| `PeerNodes.RefreshablePeerEurekaNodes.OnApplicationEvent` | spring-cloud-netflix-eureka-server/src/main/java/org/springframework/cloud/netflix/eureka/server/EurekaServerAutoConfiguration.java:403-407 | The resolved peer URLs are appended to the update-request log if and only if `RefreshRequired` holds for the event's keys. Otherwise the log is unchanged. |
| `PeerNodes.RefreshablePeerEurekaNodes.constructor` | spring-cloud-netflix-eureka-server/src/main/java/org/springframework/cloud/netflix/eureka/server/EurekaServerAutoConfiguration.java:379-385 | A new instance keeps the given client config and has requested no peer update. |
| `PeerNodes.CreatePeerEurekaNode` | spring-cloud-netflix-eureka-server/src/main/java/org/springframework/cloud/netflix/eureka/server/EurekaServerAutoConfiguration.java:388-400 | The node's service URL is the input URL. Its target host is the parsed host when there is one, and `"host"` otherwise. |
| `VersionFilter.StaticContentPattern` | spring-cloud-netflix-eureka-server/src/main/java/org/springframework/cloud/netflix/eureka/server/EurekaServerAutoConfiguration.java:235-240 | The literal part of the static regex is `contextPath + prefix` when the context path has text, and `prefix` otherwise. |
| `JavaText.HasText` | spring-cloud-netflix-eureka-server/src/main/java/org/springframework/cloud/netflix/eureka/server/EurekaServerAutoConfiguration.java:237 | `StringUtils.hasText`: a string with text is non-empty, and a string whose first character is not whitespace has text. |
| `VersionFilter.Matches` | spring-cloud-netflix-eureka-server/src/main/java/org/springframework/cloud/netflix/eureka/server/EurekaServerAutoConfiguration.java:250 | `staticPattern.matcher(uri).matches()`: a matching URI starts with `leading/` and is at least four characters longer than `leading` (the shortest directory is `js`). |
| `VersionFilter.MatchesIsRegexLanguage` | spring-cloud-netflix-eureka-server/src/main/java/org/springframework/cloud/netflix/eureka/server/EurekaServerAutoConfiguration.java:236-250 | The whole-string regex match holds exactly for `leading/dir/rest`, where dir is fonts, images, css or js and rest has no line terminator. |
| `VersionFilter.RewriteRequestUri` | spring-cloud-netflix-eureka-server/src/main/java/org/springframework/cloud/netflix/eureka/server/EurekaServerAutoConfiguration.java:246-253 | Versioned and static URIs pass unchanged. Every forwarded URI is versioned or static. A rewritten URI starts with `prefix/v2` and keeps the input's tail after `|prefix|` characters; when the input starts with the prefix, dropping `/v2` gives the input back. The `substring` exception occurs exactly for an unversioned, non-static URI shorter than the prefix, so never for a URI under the prefix. |
| `VersionFilter.RewriteIdempotent` | spring-cloud-netflix-eureka-server/src/main/java/org/springframework/cloud/netflix/eureka/server/EurekaServerAutoConfiguration.java:248-253 | Filtering a forwarded URI again leaves it unchanged. |
| `VersionFilter.ContextPathHasText` | spring-cloud-netflix-eureka-server/src/main/java/org/springframework/cloud/netflix/eureka/server/EurekaServerAutoConfiguration.java:237 | For a servlet context path, `hasText` holds exactly when the path is non-empty. |
| `VersionFilter.RewriteRequestUriInContext` | spring-cloud-netflix-eureka-server/src/main/java/org/springframework/cloud/netflix/eureka/server/EurekaServerAutoConfiguration.java:234-268 | Corrected filter. The output stays under `contextPath + prefix` and is versioned or static. Versioned and static URIs pass unchanged. A rewritten URI starts with `contextPath + prefix + "/v2"` and keeps the input's tail after the context path and the prefix. |
| `VersionFilter.RewriteInContextIdempotent` | spring-cloud-netflix-eureka-server/src/main/java/org/springframework/cloud/netflix/eureka/server/EurekaServerAutoConfiguration.java:248-253 | The corrected filter is idempotent. |
| `VersionFilter.RewriteAgreesAtRootContext` | spring-cloud-netflix-eureka-server/src/main/java/org/springframework/cloud/netflix/eureka/server/EurekaServerAutoConfiguration.java:235-253 | With an empty context path, the corrected filter and the filter as written give the same URI for every request under the prefix. |
| `VersionFilter.ExampleNotVersionedAsWritten` | spring-cloud-netflix-eureka-server/src/main/java/org/springframework/cloud/netflix/eureka/server/EurekaServerAutoConfiguration.java:248-250 | `/context/eureka/v2/apps` fails the version test as written and does not match the static pattern built for context `/context`. |
| `VersionFilter.ContextPathIsCutAsWritten` | spring-cloud-netflix-eureka-server/src/main/java/org/springframework/cloud/netflix/eureka/server/EurekaServerAutoConfiguration.java:248-253 | As written, that request becomes `/eureka/v2t/eureka/v2/apps`, which is outside the context. |
| `VersionFilter.ContextPathIsKeptWhenCorrected` | spring-cloud-netflix-eureka-server/src/main/java/org/springframework/cloud/netflix/eureka/server/EurekaServerAutoConfiguration.java:248-253 | The corrected filter passes that request through unchanged. |
| `Config.EurekaServerConfig` | spring-cloud-netflix-eureka-server/src/main/java/org/springframework/cloud/netflix/eureka/server/EurekaServerAutoConfiguration.java:351-357 | Registry-sync retries are 5 when the server registers with Eureka. Otherwise the bean defaults are left untouched. The codec names are never changed. |
| `Config.GetCodec` | spring-cloud-netflix-eureka-server/src/main/java/org/springframework/cloud/netflix/eureka/server/EurekaServerAutoConfiguration.java:156-162 | `CodecWrappers.getCodec`: non-null exactly for a set name that is registered, and then the codec registered under that name. |
| `Config.CodecOrFallback` | spring-cloud-netflix-eureka-server/src/main/java/org/springframework/cloud/netflix/eureka/server/EurekaServerAutoConfiguration.java:155-163 | The configured codec when the lookup finds one, else the fallback's lookup. The result is non-null exactly when one of the two names is registered, and it is always a registered codec. |
| `Config.GetFullJson` | spring-cloud-netflix-eureka-server/src/main/java/org/springframework/cloud/netflix/eureka/server/EurekaServerAutoConfiguration.java:155-158 | A registered configured JSON codec wins. Whenever the configured lookup yields null (unset or unregistered name), the result is the Jackson JSON lookup. The result is non-null whenever Jackson JSON is registered. |
| `Config.GetFullXml` | spring-cloud-netflix-eureka-server/src/main/java/org/springframework/cloud/netflix/eureka/server/EurekaServerAutoConfiguration.java:160-163 | A registered configured XML codec wins. Whenever the configured lookup yields null (unset or unregistered name), the result is the XStream XML lookup. The result is non-null whenever XStream XML is registered. |
| `Config.FullJsonAfterRegistration` | spring-cloud-netflix-eureka-server/src/main/java/org/springframework/cloud/netflix/eureka/server/EurekaServerAutoConfiguration.java:145-158 | After the class initialiser registers the Jackson JSON wrapper under its name, the full JSON codec is never null. |

## Findings

| source | as written | input that shows it | evidently intended | confidence | as-written member | corrected member |
|---|---|---|---|---|---|---|
| spring-cloud-netflix-eureka-server/src/main/java/org/springframework/cloud/netflix/eureka/server/EurekaServerAutoConfiguration.java:248-253 | The request URI includes the servlet context path. The static pattern accounts for it (:237-239). The `/v2` test and `substring(DEFAULT_PREFIX.length())` do not. | Context path `/context`, prefix `/eureka`, URI `/context/eureka/v2/apps` becomes `/eureka/v2t/eureka/v2/apps`. | Test and cut the path after the context path, and keep the context path: the URI passes unchanged. | medium; not executed | `VersionFilter.ContextPathIsCutAsWritten` | `VersionFilter.RewriteRequestUriInContext` |

## Left out

- `updatePeerEurekaNodes` and `resolvePeerUrls` come from `PeerEurekaNodes`, which is not part of this model. Their effect is kept only as a logged "update requested with these URLs". The peer-set diff, the closing of removed nodes and the atomicity of the swap are therefore not modelled.
- `PeerEurekaNode` keeps only its target host and service URL. The replication client (`Jersey3ReplicationClient.createReplicationClient`), the registry and the server config are left out: they are transport and library objects. The failure of client construction is therefore not modelled.
- `hostFromUrl` is a function parameter, because `PeerEurekaNodes` is not part of this model.
- `DEFAULT_PREFIX`, the codec names and the defaults of `EurekaServerConfigBean` are parameters, because `EurekaConstants`, `CodecWrappers` and `EurekaServerConfigBean` are not part of this model.
- `CodecOrFallback`: `CodecWrappers.getCodec` is modelled as a lookup in a name-to-codec map that yields nothing for an unset or unknown name. Any lazy creation of a codec by `getCodec` is not captured.
- `StaticContentPattern`: the context path and the prefix are read literally. Any regex metacharacters in them are not interpreted.
- The filter's request wrapper also overrides `getServletPath`. The model keeps only the rewritten request URI.
- Concurrency between change notifications is not modelled. Each event is processed as one atomic step.
- Not modelled, because it is wiring or library code with no stateable behaviour:
  - bean wiring, conditional annotations and autowired fields;
  - Jersey classpath scanning and the HK2 bridge;
  - `eurekaHttpClient`;
  - filter registration order and URL patterns;
  - `CloudServerCodecs` and the compact codecs;
  - the trace filter registration.
- The replication-client additional filters are not modelled: the source stores them but never uses them.
