/** The CV data file (`cv_data.json`) as typed records. A key that the generators read with
    `entry['key']` is a plain field; a key they read with `.get` or test with `in` is an `Option`. */
module Profile {
  import opened Wrappers

  datatype Personal = Personal(
    first: string, last: string, title: string,
    emailSurrey: string, phone: string, website: string,
    googleScholar: string, researchgate: string, linkedin: string, github: string,
    about: string)

  datatype Experience = Experience(
    startDate: string, endDate: string,
    position: string, organization: string, location: string,
    description: Option<string>,
    responsibilities: seq<string>)

  datatype Education = Education(
    startDate: string, endDate: string,
    degree: string, institution: string, location: string,
    thesis: Option<string>,
    supervisors: Option<seq<string>>,
    coDirection: Option<string>,
    mobility: Option<seq<string>>)

  datatype Project = Project(
    startDate: string, endDate: string,
    title: string, organization: string, description: string,
    status: Option<string>)

  datatype Publication = Publication(title: string, venue: string, year: string, summary: Option<string>)

  datatype Activity = Activity(
    date: string, event: string,
    kind: Option<string>, location: Option<string>, description: Option<string>)

  datatype Skills = Skills(
    processEngineering: seq<string>, dataScience: seq<string>,
    programming: seq<string>, languages: seq<string>)

  datatype CvData = CvData(
    personal: Personal,
    education: seq<Education>,
    experience: seq<Experience>,
    projects: seq<Project>,
    publications: Option<seq<Publication>>,
    activities: Option<seq<Activity>>,
    skills: Skills,
    hobbies: seq<(string, string)>)
}
