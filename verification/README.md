# API gateway core, modelled in Dafny

This project models the core of a small dynamic reverse-proxy gateway written in PHP on Symfony. A caller addresses a logical service as `/api/{service}/{path}`. The gateway then works in three gates:

1. It asks a fixed-window rate limiter whether the client IP may proceed.
2. It resolves the service name to `http://address:port` by querying Consul's health endpoint for passing instances.
3. It forwards the request and relays the upstream response. A transport failure becomes a generic 503.

Two classes make up the core:

- `GatewayController` holds the pipeline (`handle`) and the outbound header allow-list (`buildForwardHeaders`).
- `ServiceDiscovery` holds the address lookup (`getServiceUrl`).

The model is functional. Every answer from outside the core is a parameter:

- the limiter's verdict;
- the registry's decoded reply;
- the index `array_rand` picks;
- the upstream exchange or its transport failure.

`Gateway.Handle` returns the caller-facing `Outcome` together with a `Trace`. The trace records which downstream calls were made: the limiter key, the discovery request, the one outbound request and the log entry. That makes "no outbound call is made" a statement about the result.

Files:

- `wrappers.dfy`: `Option`.
- `php_text.dfy`: the PHP string behaviour the core relies on:
  - truthiness of `?string`, where null, `""` and `"0"` are falsy;
  - `rtrim`/`ltrim` with the mask `/`;
  - `sprintf('%d')` and its inverse;
  - first and last index of a character;
  - ASCII lower-casing of header names.
- `service_discovery.dfy`: `getServiceUrl`, as `ServiceDiscovery.Resolve`.
- `gateway.dfy`: `handle`, `buildForwardHeaders`, the target-URL composition, and the request life cycle as a state machine (`Step`/`Run`/`Reply`).
- `end_to_end.dfy`: the controller fed by the resolver.

Four details of the code a reader might not expect; the model follows the code:

- **The 404 check.** The controller rejects any *falsy* discovery answer: null, `""` or `"0"`, not only "nothing found".
- **The query string.** It is appended when it is *truthy*. A query of exactly `"0"` would be dropped, although Symfony's query normalisation turns a bare `0` into `0=`, so that case does not arise in practice. `Gateway.QueryAppendedIffNonEmpty` states the "non-empty" reading for every other query.
- **Upstream statuses.** The upstream response is relayed through Symfony's `Response` constructor inside the `try`. That constructor rejects a status below 100 or from 600 up, so such a status takes the `catch` path: the caller gets the same 503 as for a transport failure, and a log entry is written.
- **Missing headers.** The three copied headers are always present as keys of the outbound header array. Their value is null when the inbound request lacks them; they are not left out.

## Model

| member | source | states |
|---|---|---|
| PhpText.RTrimSlash | src/Controller/GatewayController.php:48 | `rtrim($baseUrl, '/')` is a prefix of the base that does not end in '/', and everything it removes is '/' |
| PhpText.LTrimSlash | src/Controller/GatewayController.php:48 | `ltrim($path, '/')` is a suffix of the path that does not start with '/', and everything it removes is '/' |
| PhpText.RTrimSlashRemovesExactlyTrailingRun | src/Controller/GatewayController.php:48 | for any stem not ending in '/' followed by any run of slashes, `rtrim` returns exactly the stem |
| PhpText.LTrimSlashRemovesExactlyLeadingRun | src/Controller/GatewayController.php:48 | for any run of slashes followed by a stem not starting with '/', `ltrim` returns exactly the stem |
| PhpText.Decimal | src/Service/ServiceDiscovery.php:43 | `%d` renders the port as a non-empty string of digits, with a leading '-' exactly for a negative value and no leading zero other than in "0" |
| PhpText.DecimalRoundTrip | src/Service/ServiceDiscovery.php:43 | the `%d` rendering of any integer parses back to that integer |
| PhpText.NatDecimalRoundTrip | src/Service/ServiceDiscovery.php:43 | the digits of a natural number denote that number |
| ServiceDiscovery.RegistryQueryUrl | src/Service/ServiceDiscovery.php:20-23 | the registry query starts with `consulUrl + "/v1/health/service/"`, ends with `?passing=1`, and has the name in between |
| ServiceDiscovery.RegistryQueryRoundTrip | src/Service/ServiceDiscovery.php:22 | the service name can be read back from the registry query |
| ServiceDiscovery.RegistryQueryInjective | src/Service/ServiceDiscovery.php:22 | two different service names are never looked up with the same query |
| ServiceDiscovery.PassingFilterIsTheWholeQuery | src/Service/ServiceDiscovery.php:22 | when neither the base URL nor the name contains '?', the first '?' of the query is the one before `passing=1` |
| ServiceDiscovery.ServiceUrl | src/Service/ServiceDiscovery.php:43 | the formatted address starts with `http://` and so is never falsy |
| ServiceDiscovery.ServiceUrlRoundTrip | src/Service/ServiceDiscovery.php:43 | `http://address:port` determines the address and the port it was built from; the split is at the last ':' |
| ServiceDiscovery.InstanceUrl | src/Service/ServiceDiscovery.php:35-43 | an instance yields a URL iff its service address and port are present and, when that address is empty, its node address is present; the URL uses the chosen address and the service port |
| ServiceDiscovery.Resolve | src/Service/ServiceDiscovery.php:17-47 | a URL results iff the reply decoded to a non-empty list whose picked element is usable; the URL starts with `http://`, is truthy, and is the URL of an element of the list; the registry query is the health endpoint with `?passing=1` |
| ServiceDiscovery.FailuresLookLikeNoInstances | src/Service/ServiceDiscovery.php:25-47 | an unreachable registry, an undecodable reply and an empty list all yield null |
| ServiceDiscovery.PrefersServiceAddress | src/Service/ServiceDiscovery.php:35-43 | a non-empty service address is used with the service port, whatever the node says |
| ServiceDiscovery.FallsBackToNodeAddress | src/Service/ServiceDiscovery.php:39-43 | an empty service address ("" or "0") is replaced by the node address, and the port still comes from the service record |
| ServiceDiscovery.OnlyChosenInstanceMatters | src/Service/ServiceDiscovery.php:33 | two replies whose picked elements agree give the same URL, whatever their other elements |
| ServiceDiscovery.ExampleHealthyService | tests/Service/ServiceDiscoveryTest.php:12-31 | service `10.0.0.1:8080` on node `127.0.0.1` gives `http://10.0.0.1:8080` |
| ServiceDiscovery.ExampleEmptyService | tests/Service/ServiceDiscoveryTest.php:33-46 | an empty list gives null, after querying `http://consul:8500/v1/health/service/unknown-service?passing=1` |
| Gateway.ForwardHeaders | src/Controller/GatewayController.php:90-103 | the outbound header map has exactly the keys Accept, Content-Type, User-Agent, X-Gateway and X-Client-IP; the first three hold the inbound values (null when absent), X-Gateway is `api-gateway`, X-Client-IP is the client IP |
| Gateway.ForwardHeadersSeeOnlyAllowList | src/Controller/GatewayController.php:90-103 | two requests that agree on the three allow-listed headers and the client IP produce the same outbound headers |
| Gateway.OtherHeadersNeverForwarded | src/Controller/GatewayController.php:90-103 | setting any inbound header outside the allow-list changes nothing sent upstream, and only allow-listed names are ever sent |
| Gateway.AuthorizationIsDropped | src/Controller/GatewayController.php:90-103 | an Authorization header is never sent upstream and does not influence what is sent |
| Gateway.JoinPath | src/Controller/GatewayController.php:48 | the joined URL is the base without trailing slashes, then exactly one '/', then the path without leading slashes; no '/' on either side of the join point |
| Gateway.JoinCollapsesSlashRuns | src/Controller/GatewayController.php:48 | whatever runs of slashes surround the join point, they collapse into a single '/' |
| Gateway.AppendQuery | src/Controller/GatewayController.php:50-52 | the URL is extended iff the query string is truthy, and then by exactly '?' and the query |
| Gateway.AppendQueryRoundTrip | src/Controller/GatewayController.php:50-52 | for a URL without '?', splitting the target at its first '?' gives back the URL and the appended query, or no query |
| Gateway.QueryAppendedIffNonEmpty | src/Controller/GatewayController.php:50-52 | for any query other than "0", '?' is appended iff the query string is present and non-empty |
| Gateway.NotFoundMessageRoundTrip | src/Controller/GatewayController.php:44 | the message `Service "<name>" not found.` names exactly the requested service |
| Gateway.Handle | src/Controller/GatewayController.php:33-83 | the limiter is always asked, keyed by the client IP; 429 iff the limiter rejects; 404 iff admitted and discovery is falsy; discovery is asked iff admitted; an outbound request is made iff admitted and discovery is truthy; a log entry iff that request failed in transport or came back with a status outside 100..599; a completed exchange with a valid status is relayed unchanged, and every other upstream result gives the fixed 503 |
| Gateway.RejectedRequestGets429 | src/Controller/GatewayController.php:36-39 | a rejected client gets 429, and neither discovery nor the upstream service is called |
| Gateway.UnknownServiceGets404 | src/Controller/GatewayController.php:42-45 | a falsy discovery answer gives 404 with `Service "<name>" not found.`, and nothing is sent upstream |
| Gateway.ForwardedRequestIsSent | src/Controller/GatewayController.php:47-67 | the one outbound request goes to the joined target URL with the original method and body, the allow-listed headers, timeout 5 and max_redirects 0 |
| Gateway.ForwardError | src/Controller/GatewayController.php:57-81 | the `try` block ends in the `catch` exactly when the transport fails or the upstream status is outside 100..599; a transport failure's own message is what gets logged |
| Gateway.CompletedExchangeIsRelayed | src/Controller/GatewayController.php:69-73 | a completed upstream exchange with a status from 100 to 599 is relayed with its status, headers and body unchanged, 4xx and 5xx included, and nothing is logged |
| Gateway.InvalidStatusGets503 | src/Controller/GatewayController.php:69-81 | an upstream status outside 100..599 makes the `Response` constructor throw: the caller gets 503 `Service Unavailable`, and the log entry names the service, the target URL and the rejected status |
| Gateway.TransportFailureGets503 | src/Controller/GatewayController.php:74-81 | a transport failure gives 503 with body `Service Unavailable`; the log entry carries the service, target URL and error; the error message has no influence on the response |
| Gateway.Step | src/Controller/GatewayController.php:33-83 | every transition of the life cycle moves strictly forward: there is no retry edge |
| Gateway.Run | src/Controller/GatewayController.php:33-83 | every request reaches a terminal stage: rejected, unresolved or forwarded |
| Gateway.RunFromReceived | src/Controller/GatewayController.php:36-82 | the life cycle ends rejected iff the limiter refuses, unresolved iff discovery is falsy, and otherwise forwarded with the upstream result |
| Gateway.HandleFollowsLifeCycle | src/Controller/GatewayController.php:33-83 | the controller's outcome is the single reply of the terminal stage that the limiter, discovery and upstream answers lead to |
| Gateway.ExampleForwardToUsers | tests/Controller/GatewayControllerTest.php:34-63 | `GET /api/users/1` with discovery `http://10.0.0.1:8080` sends one GET to `http://10.0.0.1:8080/1`, without the Authorization header, and relays 200 with `{"status":"ok"}` |
| Gateway.ExampleTargetUrl | tests/Controller/GatewayControllerTest.php:49-52 | base `http://10.0.0.1:8080` and path `1` give `http://10.0.0.1:8080/1` |
| Gateway.ExampleUnknownService | tests/Controller/GatewayControllerTest.php:65-80 | discovery answering null for `unknown` gives 404 `Service "unknown" not found.` and no outbound call |
| EndToEnd.Serve | src/Controller/GatewayController.php:42-45 | wired to the resolver, a request is forwarded iff the limiter admits it and the registry's reply is a non-empty list whose picked instance is usable; discovery is consulted iff the request is admitted |
| EndToEnd.NoInstancesMeansNotFound | src/Service/ServiceDiscovery.php:27-29 | a service with no passing instance gets 404 and no outbound request |
| EndToEnd.RegistryOutageLooksLikeUnknownService | src/Service/ServiceDiscovery.php:44-47 | with the registry unreachable, the caller sees exactly what it would for an unknown service |
| EndToEnd.FoundServiceIsForwarded | src/Service/ServiceDiscovery.php:33-43 | a usable instance is forwarded to, at the target built from its chosen address and service port |

## Left out

- Rate limiter internals: the fixed-window accounting lives in Symfony's rate limiter and is not shown. The limiter's verdict is a boolean input, and no window or limit invariant is claimed.
- Concurrency and atomic quota consumption: these are runtime and library concerns. Each request is modelled on its own.
- The HTTP client and JSON decoding: these are foreign I/O. This covers the registry request and `toArray`, the outbound request, timeouts, redirect handling and cancellation. Their results are the inputs `RegistryReply` and `ForwardResult`. The timeout (5) and `max_redirects` (0) are recorded as values of the outbound request, not as behaviour.
- The randomness of `array_rand`: it is the parameter `pick`, an arbitrary valid index. No distribution is claimed.
- Logging: only the entry's content (service, target URL, error) is recorded in the trace. The logger itself is left out.
- Routing attributes, dependency injection and the `CONSUL_URL` environment binding: these are framework plumbing. The registry base URL is a parameter.
- The rendering of the two HTTP exceptions into responses: the kernel turns them into 429 and 404, and that code is not part of this model. `Gateway.Status` gives the status the caller sees.
- Symfony's `Response` class is not part of this model. Only its status check (100 to 599) is modelled. The logged text for a rejected status follows that class's `The HTTP status code "<status>" is not valid.`. Header-name validation in the constructor is left out.
- Headers Symfony adds to a `Response` on its own, such as Cache-Control: the modelled headers are those the controller passes.
- Symfony's header bag is not part of this model. It is modelled only as lower-cased names with "first value wins" on `get`. Null entries and header-name normalisation beyond ASCII case are left out.
- `Request::getQueryString` normalisation (sorting and re-encoding) is not part of this model. The query string is an input.
- Percent-decoding of the `{service}` and `{path}` route parameters: routing is left out, so the model takes the decoded strings as given. A decoded '?' in either ends up verbatim in the URL. `ServiceDiscovery.PassingFilterIsTheWholeQuery` and `Gateway.AppendQueryRoundTrip` therefore assume the strings contain no '?'.
- Missing keys in a registry record: in the model, reading a missing `Service.Address`, `Service.Port` or `Node.Address` takes the `catch` path and gives null, which relies on Symfony's error handler turning PHP's undefined-key warning into an exception. Without that handler, PHP 8 would carry on with null.
- Registry values that are not strings (the addresses) or integers (the port): `%d` on a non-integer port is left out.
