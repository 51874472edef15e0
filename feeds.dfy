/**
 * What both versions of the pipeline share: the fetched feed, the
 * configuration, the mail capability and the way a run ends.
 */
module Feeds {
  import opened Wrappers
  import opened Posts
  import opened FileSystem
  import Text

  /** A parsed feed: its entries in feed order and its raw `updated` text, if any. */
  datatype Feed = Feed(entries: seq<Entry>, updated: Option<string>)

  /** `feedparser.parse(url)`: a feed, or `Failed` when it raised or returned `None`. */
  datatype FetchResult = Failed | Fetched(feed: Feed)

  /** The configuration values `main` receives. */
  datatype Config = Config(templateName: string, outputFolder: Path, sender: string)

  /** A configured email client; `delivers` is false when `send_message` raises. */
  datatype MailClient = MailClient(delivers: bool)

  /**
   * How a run of `main` ends: one of its early `return`s, an exception that
   * escapes it, or the end of the function.
   */
  datatype Outcome =
    | FetchFailed         // "Unable to parse feed!"
    | NoEntries           // "No entries found!"
    | TimestampInvalid    // `strptime` raised (older pipeline only)
    | AlreadyProcessed    // "Feed already processed"
    | EntryFieldMissing   // `parse_posts` raised AttributeError (older pipeline only)
    | TemplateMissing     // "Template not found!"
    | ContactsUnreadable  // opening the contacts file raised
    | DeliveryFailed      // `send_message` raised
    | Done

  datatype RunResult = RunResult(outcome: Outcome, disk: Disk)

  /** `<output_folder>/<template_name>`, the template name taken as one path component. */
  function Namespace(cfg: Config): (ns: Path)
    ensures |ns| == |cfg.outputFolder| + 1
    ensures ns[..|cfg.outputFolder|] == cfg.outputFolder
    ensures ns[|ns| - 1] == cfg.templateName
  {
    cfg.outputFolder + [cfg.templateName]
  }

  /**
   * The feed's timestamp: `strptime(updated, "%a, %d %b %Y %H:%M:%S %z")`,
   * where `parse` stands for the library parse and returns `None` where it
   * would raise.
   */
  function FeedDatetime(feed: Feed, parse: string -> Option<int>): Option<int> {
    match feed.updated
    case None => None
    case Some(text) => parse(text)
  }

  /** The notification `main` composes: one message to all contacts. */
  function Email(cfg: Config, contacts: seq<string>, html: string): Message {
    Message(cfg.sender, Text.Join(contacts), cfg.templateName + " Posts", html)
  }
}
