/**
 Data model of the Service Fabric client: the fields of the decoded JSON/XML
 structures that the client logic reads, the error kinds it distinguishes, and
 the shape of one transport reply.
 */
module Model {
  import opened Wrappers

  /** The error kinds the client distinguishes (messages are not modelled). */
  datatype Error =
    | MissingEndpoint             // construction with an empty endpoint
    | InvalidClient               // the HTTP client is nil
    | Connectivity                // the transport call itself failed
    | UpstreamStatus(status: int) // the transport answered with a status other than 200
    | EmptyResponse               // status 200 with an empty body
    | JsonDeserialization         // json.Unmarshal rejected the body
    | XmlDeserialization          // xml.Unmarshal rejected an extension value
    | ClusterHealthUnavailable    // GetClusterHealth could not reach the cluster
    | ExtensionRequest(cause: Error) // fetching the service types failed

  /** What the transport yields for one request: a failure, or a status and a body. */
  datatype RawReply = TransportFailure | Answer(status: int, body: string)

  /**
   A reply together with what json.Unmarshal makes of its body when decoding
   into the page shape P (None: the body is not a valid P).
   */
  datatype Reply<P> = Reply(raw: RawReply, decoded: Option<P>)

  /** ApplicationItemsPage / ServiceItemsPage: items plus a nullable token. */
  datatype Page<T> = Page(continuationToken: Option<string>, items: seq<T>)

  datatype ApplicationItem = ApplicationItem(id: string, name: string, typeName: string, typeVersion: string)

  datatype ServiceItem = ServiceItem(id: string, name: string, typeName: string)

  datatype PropValue = PropValue(data: string, kind: string)

  datatype Property = Property(name: string, value: PropValue)

  /** PropertiesListPage: its token is a plain string, absent meaning "". */
  datatype PropertiesListPage = PropertiesListPage(continuationToken: string, properties: seq<Property>)

  /**
   An extension of a service type. `xml` is what xml.Unmarshal of `value`
   yields for the caller's target shape X (None: the value does not decode).
   */
  datatype KeyValuePair<X> = KeyValuePair(key: string, value: string, xml: Option<X>)

  datatype ServiceTypeDescription<X> = ServiceTypeDescription(serviceTypeName: string, extensions: seq<KeyValuePair<X>>)

  datatype ServiceType<X> = ServiceType(serviceTypeDescription: ServiceTypeDescription<X>)

  datatype Label = Label(key: string, value: string)

  /** The decoded form of a `<Labels><Label Key="...">value</Label>...</Labels>` extension. */
  datatype ServiceExtensionLabels = ServiceExtensionLabels(labels: seq<Label>)
}
