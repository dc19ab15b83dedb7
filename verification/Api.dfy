/** The part of the Config API that the listeners depend on. */
module Api {

  datatype Option<+T> = None | Some(value: T)

  datatype RetryPolicy = RetryPolicy(maxRetries: int, algorithm: string)

  /** `auth` is the authentication block, kept opaque. */
  datatype WebhookConfig = WebhookConfig(
    identifierPath: string,
    pathSuffix: string,
    auth: Option<string>,
    retryPolicy: Option<RetryPolicy>)

  const EMPTY_WEBHOOK := WebhookConfig("", "", None, None)

  /** `blocks` holds the configuration blocks other than `webhook`, each under the
      name of the source type it belongs to; a missing entry is a nil pointer. */
  datatype NotificationSource = NotificationSource(
    kind: string,
    webhook: Option<WebhookConfig>,
    blocks: map<string, string>)

  datatype NamespacedName = NamespacedName(namespace: string, name: string)

  const WEBHOOK := "Webhook"
  const KUBERNETES_SECRET := "KubernetesSecret"
  const KUBERNETES_CONFIG_MAP := "KubernetesConfigMap"

  predicate IsSupported(kind: string) {
    || kind == WEBHOOK
    || kind == KUBERNETES_SECRET
    || kind == KUBERNETES_CONFIG_MAP
    || kind == "AwsSqs"
    || kind == "AzureEventGrid"
    || kind == "GooglePubSub"
    || kind == "HashicorpVault"
    || kind == "TCPSocket"
    || kind == "Mock"
  }

  predicate IsWebhook(source: NotificationSource) {
    source.kind == WEBHOOK
  }

  /** The suffix as written, "" when it or the whole webhook block is missing. */
  function RawSuffix(source: NotificationSource): string {
    if source.webhook.Some? then source.webhook.value.pathSuffix else ""
  }
}
