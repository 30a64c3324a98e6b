/**
 * service/video-service.go: the in-memory video service, an append-only
 * list held in the service's `videos` field.
 */
module VideoServices {
  import opened Entities

  class VideoService {
    var videos: seq<Video>

    /** service.New: an empty list. */
    constructor ()
      ensures videos == []
    {
      videos := [];
    }

    /** Save appends the video, duplicates included, and returns it unchanged. */
    method Save(video: Video) returns (r: Video)
      modifies this
      ensures r == video
      ensures videos == old(videos) + [video]
    {
      videos := videos + [video];
      r := video;
    }

    /** GetAll returns the stored list, in insertion order, and changes nothing. */
    method GetAll() returns (r: seq<Video>)
      ensures r == videos
    {
      r := videos;
    }
  }

  /** A fresh service that saves a, b and a again lists exactly those, in that order. */
  method SaveOrder(a: Video, b: Video) returns (all: seq<Video>)
    ensures all == [a, b, a]
  {
    var s := new VideoService();
    var _ := s.Save(a);
    var _ := s.Save(b);
    var _ := s.Save(a);
    all := s.GetAll();
  }
}
