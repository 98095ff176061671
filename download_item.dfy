/**
 * One download request and its lifecycle status (the DownloadItem struct).
 * The added/start/finish timestamps are not modelled.
 */
module DownloadItems {

  datatype DownloadStatus = Pending | Downloading | Completed | Failed | Cancelled

  datatype DownloadItem = DownloadItem(
    url: string,
    username: string,
    password: string,
    downloadDir: string,
    title: string,
    status: DownloadStatus,
    progress: int,
    errorMessage: string)
  {
    /** A terminal status: the download will not change any more. */
    predicate IsFinished()
    {
      status == Completed || status == Failed || status == Cancelled
    }

    /** The display name of the status. */
    function StatusString(): (name: string)
      ensures name != ""
    {
      match status
      case Pending => "Pending"
      case Downloading => "Downloading"
      case Completed => "Completed"
      case Failed => "Failed"
      case Cancelled => "Cancelled"
    }
  }

  /** The default constructor: empty strings, Pending, no progress. */
  function EmptyItem(): (item: DownloadItem)
    ensures item.status == Pending && item.progress == 0
    ensures item.url == "" && item.username == "" && item.password == "" && item.downloadDir == ""
    ensures item.title == "" && item.errorMessage == ""
  {
    DownloadItem("", "", "", "", "", Pending, 0, "")
  }

  /** The four-argument constructor: the request as given, Pending, no progress. */
  function NewItem(url: string, user: string, pass: string, dir: string): (item: DownloadItem)
    ensures item.url == url && item.username == user && item.password == pass && item.downloadDir == dir
    ensures item.title == "" && item.errorMessage == ""
    ensures item.status == Pending && item.progress == 0
    ensures !item.IsFinished()
  {
    DownloadItem(url, user, pass, dir, "", Pending, 0, "")
  }

  /** An item exactly as the four-argument constructor leaves it. */
  predicate IsFresh(item: DownloadItem)
  {
    item.status == Pending && item.progress == 0 && item.title == "" && item.errorMessage == ""
  }

  /** Finished is exactly "neither waiting nor running". */
  lemma FinishedIffNotActive(item: DownloadItem)
    ensures item.IsFinished() <==> !(item.status == Pending || item.status == Downloading)
  {
  }

  /** Each status has its own name: the names tell the statuses apart. */
  lemma StatusStringInjective(a: DownloadItem, b: DownloadItem)
    requires a.StatusString() == b.StatusString()
    ensures a.status == b.status
  {
  }
}
