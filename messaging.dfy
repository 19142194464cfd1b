/** The message queue as the producers and consumers see it: RabbitMQ's default exchange routes a
    message to the queue named by its routing key, so the broker is the list of messages published so
    far, each with its queue. Message bodies are JSON objects; they are modelled as datatypes. */
module Messaging {

  /** The `DOWNLOAD_QUEUE` setting's default. */
  const DownloadQueue: string := "image_downloads"

  /** The `EMBEDDING_QUEUE` setting's default. */
  const EmbeddingQueue: string := "image_embeddings"

  /** A message body: `{"url": u}` for the download queue, `{"image_id": …, "image_url": …, "image_path":
      …}` for the embedding queue. */
  datatype Message =
    | UrlMessage(url: string)
    | EmbeddingMessage(imageId: int, imageUrl: string, imagePath: string)

  /** A message as published: the queue it was routed to and its body. */
  datatype Published = Published(queue: string, message: Message)

  /** One `{"url": u}` message to the download queue per URL, in order. */
  function DownloadRequests(urls: seq<string>): (ms: seq<Published>)
    ensures |ms| == |urls|
    ensures forall i :: 0 <= i < |urls| ==> ms[i] == Published(DownloadQueue, UrlMessage(urls[i]))
  {
    if |urls| == 0 then [] else DownloadRequests(urls[..|urls| - 1]) + [Published(DownloadQueue, UrlMessage(urls[|urls| - 1]))]
  }

  /** Publishing two batches one after the other is publishing their concatenation. */
  lemma DownloadRequestsConcat(a: seq<string>, b: seq<string>)
    ensures DownloadRequests(a + b) == DownloadRequests(a) + DownloadRequests(b)
  {
    var l, r := DownloadRequests(a + b), DownloadRequests(a) + DownloadRequests(b);
    assert |l| == |r|;
    forall i | 0 <= i < |l| ensures l[i] == r[i] {
      if i < |a| {
        assert (a + b)[i] == a[i];
      } else {
        assert (a + b)[i] == b[i - |a|];
      }
    }
  }

  /** The URLs carried by the download requests among some published messages, in order. */
  function RequestedUrls(ms: seq<Published>): (urls: seq<string>)
    ensures |urls| <= |ms|
  {
    if |ms| == 0 then []
    else
      var m := ms[|ms| - 1];
      RequestedUrls(ms[..|ms| - 1]) + (if m.queue == DownloadQueue && m.message.UrlMessage? then [m.message.url] else [])
  }

  /** Download requests for a list of URLs carry exactly that list: the publishing step loses,
      reorders and duplicates nothing. */
  lemma {:induction false} RequestedUrlsOfRequests(urls: seq<string>)
    ensures RequestedUrls(DownloadRequests(urls)) == urls
    decreases |urls|
  {
    if |urls| > 0 {
      var ms := DownloadRequests(urls);
      assert ms[..|ms| - 1] == DownloadRequests(urls[..|urls| - 1]);
      RequestedUrlsOfRequests(urls[..|urls| - 1]);
    }
  }

  /** The client's connection state and everything published through it. `channelOpen` stands for
      `rabbitmq_client.channel is not None`. */
  class Broker {
    var channelOpen: bool
    var published: seq<Published>

    constructor (open: bool)
      ensures channelOpen == open && published == []
    {
      channelOpen := open;
      published := [];
    }

    /** `channel.default_exchange.publish(message, routing_key=queue)` on an open channel. */
    method Publish(queue: string, message: Message)
      requires channelOpen
      modifies this
      ensures channelOpen && published == old(published) + [Published(queue, message)]
    {
      published := published + [Published(queue, message)];
    }
  }
}
