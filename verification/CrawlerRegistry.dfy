/**
 The service's lock-guarded crawler map and cancel flags. The lifecycle protocol
 keeps `canceled` as its `running` map: Launch adds, StopProject and StopWorker
 stop, Remove removes.
 */
module CrawlerRegistry {
  import opened Lifecycle

  class Crawler {
    var stopped: bool

    constructor ()
      ensures !stopped
    {
      stopped := false;
    }

    method Stop()
      modifies this
      ensures stopped
    {
      stopped := true;
    }
  }

  class CrawlerService {
    var crawlers: map<string, Crawler>
    var canceled: map<string, bool>

    /** A project's cancel flag is set exactly when its own crawler, shared with no other project, was stopped. */
    ghost predicate Valid()
      reads this, crawlers.Values
    {
      && crawlers.Keys == canceled.Keys
      && (forall p :: p in crawlers ==> crawlers[p].stopped == canceled[p])
      && (forall p, q :: p in crawlers && q in crawlers && crawlers[p] == crawlers[q] ==> p == q)
    }

    constructor ()
      ensures Valid() && canceled == map[]
    {
      crawlers, canceled := map[], map[];
    }

    /** Null stands for the error that the project is already being crawled. */
    method AddCrawler(project: string) returns (c: Crawler?)
      requires Valid()
      modifies this
      ensures Valid()
      ensures c == null <==> project in old(canceled)
      ensures c == null ==> crawlers == old(crawlers) && canceled == old(canceled)
      ensures c != null ==> fresh(c) && !c.stopped && crawlers == old(crawlers)[project := c]
                            && canceled == old(canceled)[project := false]
    {
      if project in crawlers {
        return null;
      }
      c := new Crawler();
      crawlers := crawlers[project := c];
      canceled := canceled[project := false];
    }

    method RemoveCrawler(project: string)
      requires Valid()
      modifies this
      ensures Valid()
      ensures crawlers == old(crawlers) - {project} && canceled == old(canceled) - {project}
    {
      crawlers := crawlers - {project};
      canceled := canceled - {project};
    }

    method StopCrawler(project: string)
      requires Valid()
      modifies this, crawlers.Values
      ensures Valid()
      ensures crawlers == old(crawlers) && canceled == SetStop(old(canceled), project)
    {
      if project !in crawlers {
        return;
      }
      canceled := canceled[project := true];
      crawlers[project].Stop();
    }

    method CrawlerCanceled(project: string) returns (b: bool)
      ensures b == IsCanceled(canceled, project)
    {
      b := project in canceled && canceled[project];
    }
  }
}
